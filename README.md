# MITL timesheet: a Dafny model of the data layer

The MITL timesheet app lets a student employee record work intervals and export them to a spreadsheet. Each interval has a date, a time in, a time out, a break and a task. This project models the logic under the app's screens, in these files:

- `time_utils.dfy` (module `TimeUtils`): the clock arithmetic `calculateHours`, the total of all hours and the hours of the current week.
- `excel_service.dfy` (module `ExcelService`): the exporter's array of rows, its column widths and its file name, up to the point where the spreadsheet library takes over. The layout is ten header rows, one row per entry from the oldest, and eight trailer rows with the total.
- `storage_service.dfy` (module `StorageService`): the entry and application-data shapes, and the single storage key. That key is read, merged with a partial update, stamped with `lastSaved` and written back. It is modelled as a class `Store` whose field `stored` is the value under the key.
- `timesheet_app.dfy` (module `TimesheetApp`): the single-file app component, as a class `App`.
  - State: the profile, the entry list, the entry form, the current view and the global slot it saves to.
  - Handlers: add an entry (validate, append, stable sort newest first), delete by id, save the profile and clear all entries.
  - Export: the style loop that gives every cell of the sheet its row's band.
- `js_text.dfy` (`JsText`) and `js_date.dfy` (`JsDate`): the JavaScript built-ins this code relies on, written out.
  - `JsText`: `parseInt`, `toFixed(2)`, `parseFloat` on what `toFixed(2)` writes, and `replace(/\s+/g, '_')`.
  - `JsDate`: `new Date("YYYY-MM-DD")` as a day number, and `getDay`.
- `wrappers.dfy`: `Option` and `Result`.

Representations:

- Hours are integer hundredths, because every stored `hours` field was written by `toFixed(2)`. NaN is `None`.
- `calculateHours` returns an exact `real`.
- Dates are day numbers counted from 1970-01-01. Instants are milliseconds.
- The clock, the time zone offset, the locale renderings of "now", the confirmation dialogs and storage failures are parameters of the operations that use them.

## Model

| member | source | states |
|---|---|---|
| TimeUtils.CalculateHours | src/utils/TimeUtils.ts:1-11 | An empty time gives 0. The result is never negative. It is positive exactly when time in plus break is before time out, and then time in + break + 60·hours = time out. There is no wrap past midnight. The app's own copy at timesheet_calculator.tsx:42-50 is the same function. |
| TimeUtils.LongerBreakFewerHours | src/utils/TimeUtils.ts:8-10 | With the times fixed, a longer break never gives more hours. |
| TimeUtils.UnreadableBreakIsNoBreak | src/utils/TimeUtils.ts:8 | A break that `parseInt` cannot read counts as 0 minutes. |
| TimeUtils.ClockExamples | src/utils/TimeUtils.ts:4-7 | "09:00", "17:30" and "17:00" are 540, 1050 and 1020 minutes after midnight. |
| TimeUtils.BreakExamples | src/utils/TimeUtils.ts:8 | The break texts "30" and "0" are 30 and 0 minutes. |
| TimeUtils.ClockMinutes | src/utils/TimeUtils.ts:4-7 | An "HH:MM" time is at most 99·60+99 minutes. With MM below 60, dividing by 60 gives back HH and the remainder gives back MM. |
| TimeUtils.BreakMinutes | src/utils/TimeUtils.ts:8 | The break is what `parseInt` reads, and 0 when that is NaN. |
| TimeUtils.CalculateHoursExample | src/utils/TimeUtils.ts:1-11 | 09:00 to 17:30 with a 30-minute break is 8.0 hours, stored as "8.00". |
| TimeUtils.CalculateHoursClampExamples | src/utils/TimeUtils.ts:2-10 | 17:00 to 09:00 gives 0 rather than a negative or wrapped value. A missing time gives 0. |
| TimeUtils.HundredthsOfMinutes | timesheet_calculator.tsx:64-70 | `toFixed(2)` of m minutes in hours keeps round(5m/3) hundredths. |
| TimeUtils.Plus | src/utils/TimeUtils.ts:27 | A sum is a number exactly when both operands are. NaN propagates. |
| TimeUtils.HoursOrZero | src/utils/TimeUtils.ts:27 | An empty hours text reads as 0. Any other text reads as `parseFloat` of it, the same as in the week sum. |
| TimeUtils.TotalHours | src/utils/TimeUtils.ts:26-28 | The total is a number exactly when every entry's `hours || 0` reads as one. |
| TimeUtils.TotalHoursEmptyAndSingle | src/utils/TimeUtils.ts:26-28 | The total of no entries is 0, and the total of one entry is its hours read by `parseFloat`, or 0 when they are empty. With the concatenation lemma below, the total is the sum over every entry. |
| TimeUtils.TotalHoursOfConcat | src/utils/TimeUtils.ts:26-28 | The total of a concatenation is the sum of the totals. The app's `totalHours` at timesheet_calculator.tsx:118 is the same reduction. |
| TimeUtils.TotalHoursSkipsEmpty | src/utils/TimeUtils.ts:27 | An entry with an empty `hours` adds nothing. |
| TimeUtils.OnOrAfter | src/utils/TimeUtils.ts:18-21 | An entry whose date does not parse is never in the week. The full condition (the date parses and is not before the week start) is stated by the TimeUtils.WeekEntries row. |
| TimeUtils.WeekEntries | src/utils/TimeUtils.ts:18-21 | It keeps exactly the entries whose date parses and falls on or after the week start, and never more entries than there are. Later dates are kept too. |
| TimeUtils.HoursValue | src/utils/TimeUtils.ts:23 | An empty hours text is NaN here. Any text `toFixed(2)` wrote reads back as the amount it was written from. |
| TimeUtils.SumHours | src/utils/TimeUtils.ts:23 | The sum is a number exactly when every summed `parseFloat(hours)` is one. An empty `hours` is NaN here. |
| TimeUtils.WeekSummary | src/utils/TimeUtils.ts:13-24 | The summary is a number exactly when every entry in the week has readable hours. |
| TimeUtils.WeekEntriesOfConcat | src/utils/TimeUtils.ts:18-21 | The filter works piece by piece, so the kept entries keep their order. |
| TimeUtils.SumHoursOfConcat | src/utils/TimeUtils.ts:23 | The sum over a concatenation is the sum of the two sums. |
| TimeUtils.WeekSummaryOfConcat | src/utils/TimeUtils.ts:18-23 | The week's hours of a concatenation are the sum of the week's hours of each part. |
| TimeUtils.WeekSummarySingle | src/utils/TimeUtils.ts:18-23 | One entry adds its `parseFloat(hours)` when it is in the week, and 0 otherwise. With the two lemmas above, the summary is the sum of the hours of exactly the entries in the week. |
| TimeUtils.WeekAtMostTotal | src/utils/TimeUtils.ts:18-27 | With readable non-negative hours, the week's hours are between 0 and the total. |
| TimeUtils.WeekSunday | src/utils/TimeUtils.ts:14-16 | The local date minus its weekday index is a Sunday, at most six days back. |
| TimeUtils.WeekStartAsWritten | src/utils/TimeUtils.ts:14-16 | The computed start falls on the local Sunday of the week and keeps now's local time of day. |
| TimeUtils.WeekStart | src/utils/TimeUtils.ts:14-16 | The corrected start is midnight at the start of a Sunday, and today is that Sunday or one of the six days after it. |
| TimeUtils.WeekStartCountsFromSunday | src/utils/TimeUtils.ts:14-21 | Counting from the start of the Sunday's date, an entry counts exactly when it is dated that Sunday or later. |
| TimeUtils.SundayExcludedAsWritten | src/utils/TimeUtils.ts:14-21 | On UTC, when now is not at midnight, an entry dated the week's Sunday fails the written filter but passes the intended one. |
| TimeUtils.SundayExcludedExample | src/utils/TimeUtils.ts:14-21 | At noon UTC on 2024-01-10, an entry dated Sunday 2024-01-07 is left out as written. |
| JsText.TrimStart | src/utils/TimeUtils.ts:8 | `parseInt` starts at the first character that is not whitespace. The result is no longer than the input, and strictly shorter when the input starts with whitespace. |
| JsText.TrimStartDropsWhitespacePrefix | src/utils/TimeUtils.ts:8 | What `parseInt` skips is exactly a prefix made only of whitespace. The rest is a suffix of the input and starts with a non-whitespace character. |
| JsText.ParseInt | src/utils/TimeUtils.ts:8 | Text that is empty or only whitespace is NaN. Text whose first non-whitespace character is a digit 1-9 reads as a non-negative number. |
| JsText.ParseIntOfNatText | src/utils/TimeUtils.ts:8 | `parseInt` reads back any decimal numeral, whatever text follows it. |
| JsText.ParseIntOfNegatedNatText | src/utils/TimeUtils.ts:8 | A leading '-' negates the numeral read. |
| JsText.ParseIntNegative | src/utils/TimeUtils.ts:8 | A minus sign in front of readable digits gives their negation. |
| JsText.ParseIntSkipsWhitespace | src/utils/TimeUtils.ts:8 | Leading whitespace does not change what `parseInt` reads. |
| JsText.ParseIntHexExample | src/utils/TimeUtils.ts:8 | "0x1e" reads as 30: a "0x" prefix switches to base 16. |
| JsText.ParseIntTextExample | src/utils/TimeUtils.ts:8 | " 45 min" reads as 45. |
| JsText.ParseIntNaNExample | src/utils/TimeUtils.ts:8 | "abc" is NaN, which `|| 0` turns into no break. |
| JsText.NatText | src/services/ExcelService.ts:49 | The decimal numeral of n is all digits, has value n, and starts with '0' only for 0. |
| JsText.UnsignedFixed2 | timesheet_calculator.tsx:70 | `toFixed(2)` writes the decimal numeral of the whole part, a point and two digits, and the value of those digits is the number of hundredths. |
| JsText.Fixed2Text | timesheet_calculator.tsx:70 | `toFixed(2)` of any amount has a point three characters from the end, and starts with '-' exactly when the amount is negative. |
| JsText.Fixed2Value | src/utils/TimeUtils.ts:23 | Only text with a point three characters from the end reads as a number, and a negative reading needs a leading '-'. |
| JsText.Fixed2RoundTrip | src/utils/TimeUtils.ts:27 | `parseFloat` of what `toFixed(2)` wrote gives back the same hundredths. |
| JsText.RoundHundredths | timesheet_calculator.tsx:70 | `toFixed(2)` rounds to the nearest hundredth, ties upward. |
| JsText.ReplaceWhitespaceRuns | src/services/ExcelService.ts:67 | The result has no whitespace, is no longer than the input, and is empty only for empty input. |
| JsText.ReplaceRunBetween | src/services/ExcelService.ts:67 | A maximal whitespace run between two pieces becomes a single '_', and each piece is replaced on its own. |
| JsText.ReplaceKeepsVisible | src/services/ExcelService.ts:67 | Replacing whitespace runs keeps every other character, in order. |
| JsText.ReplaceWithoutWhitespace | src/services/ExcelService.ts:67 | A name without whitespace is unchanged. |
| JsText.ReplaceAllWhitespace | src/services/ExcelService.ts:67 | A name made only of whitespace becomes "_", not the fallback. |
| JsDate.DaysInMonth | src/utils/TimeUtils.ts:19 | Months have 28 to 31 days. February has 29 exactly in leap years. |
| JsDate.DayNumber | src/utils/TimeUtils.ts:19 | A date's day number is that of March 1 of its March-based year, plus the lengths of the months since March, plus the days before it in its month. |
| JsDate.MonthOffsets | src/utils/TimeUtils.ts:19 | The month offset `(153·k + 2) / 5` equals the total length of the k months from March on. |
| JsDate.ParseDate | src/utils/TimeUtils.ts:19 | Only a "YYYY-MM-DD" text can parse to a date. Such a text parses exactly when its year, month and day form a calendar date, and then to that date's day number. |
| JsDate.Weekday | src/utils/TimeUtils.ts:16 | `getDay` is an index from 0 (Sunday) to 6. |
| JsDate.WeekdayNext | src/utils/TimeUtils.ts:16 | The day after any day has the next weekday, Saturday wrapping to Sunday. With JsDate.EpochIsDayZero this fixes `getDay` on every day. |
| JsDate.EpochIsDayZero | src/utils/TimeUtils.ts:19 | 1970-01-01 is day 0 and a Thursday. |
| JsDate.NextDay | src/utils/TimeUtils.ts:19 | The next calendar day has the next day number, across month ends, year ends and leap days. |
| JsDate.MarchFirst | src/utils/TimeUtils.ts:19 | March 1 follows the last day of February, whether it is the 28th or the 29th. |
| JsDate.DayNumberExamples | src/utils/TimeUtils.ts:19 | 2024-01-07 and 2024-01-10 are days 19729 and 19732. |
| StorageService.Merge | src/services/StorageService.ts:26-31 | A key the patch holds takes the patch's value. A key the patch lacks keeps its existing value. `lastSaved` is always now. |
| StorageService.MergeTwice | src/services/StorageService.ts:24-37 | Two saves in turn equal one save of the combined patch, the later save winning. |
| StorageService.MergeIdempotent | src/services/StorageService.ts:26-31 | Saving the same patch twice changes only the time stamp. |
| StorageService.Store.constructor | src/services/StorageService.ts:21 | Initially nothing is stored under the key. |
| StorageService.Store.Current | src/services/StorageService.ts:39-50 | With nothing stored, the data is the empty default. Otherwise it is exactly the stored data. |
| StorageService.Store.LoadData | src/services/StorageService.ts:39-60 | It returns the stored data. A read or parse failure, or an empty key, gives the empty default and never an error. |
| StorageService.Store.SaveData | src/services/StorageService.ts:24-37 | The key ends up holding the loaded data merged with the patch. A write error is passed on and leaves the key unchanged. |
| StorageService.Store.ClearAllData | src/services/StorageService.ts:62-69 | The key is removed, profile included. A remove error is passed on. |
| StorageService.SaveNameThenEntries | src/services/StorageService.ts:24-37 | Saving a name and then an entry list keeps both. |
| StorageService.ClearThenLoad | src/services/StorageService.ts:62-65 | After a clear, loading gives the empty default with an empty profile. |
| StorageService.SaveAfterFailedRead | src/services/StorageService.ts:51-58 | A swallowed read failure makes a save of entries alone drop the stored profile. |
| ExcelService.HeaderRows | src/services/ExcelService.ts:21-32 | There are exactly ten header rows. |
| ExcelService.EntryRow | src/services/ExcelService.ts:35-43 | An entry row has one cell per column label. |
| ExcelService.TrailerRows | src/services/ExcelService.ts:48-55 | There are exactly eight trailer rows. |
| ExcelService.TotalText | src/services/ExcelService.ts:49 | A numeric total prints as exactly the text `toFixed(2)` writes for it: a sign only when negative, no leading zeros, and two decimals. `parseFloat` reads that text back as the same hundredths. NaN prints as "NaN". |
| ExcelService.DataRows | src/services/ExcelService.ts:34-44 | Data row i holds the seven fields of entry n-1-i, in column order. |
| ExcelService.AppendDataRows | src/services/ExcelService.ts:34-44 | Pushing a row for each element of the reversed copy adds exactly the data rows of the list to what was there. |
| ExcelService.BuildRows | src/services/ExcelService.ts:16-55 | The pushed array is the header, then one row per entry from the last, then the trailer. |
| ExcelService.SheetRows | src/services/ExcelService.ts:16-55 | The sheet has ten header rows, one row per entry and eight trailer rows. |
| ExcelService.NamePart | src/services/ExcelService.ts:67 | A non-empty name gives exactly the name with each whitespace run replaced by '_'. The result has no whitespace and is never empty, and only an empty name gives "Student". Other characters are kept in order. |
| ExcelService.NamePartJoinsWords | src/services/ExcelService.ts:67 | Two words separated by any whitespace run are joined by one '_'. |
| ExcelService.NamePartExample | src/services/ExcelService.ts:67 | "John  Smith" gives "John_Smith". |
| ExcelService.FileName | src/services/ExcelService.ts:67 | The file name starts with "MITL_Timesheet_" and ends with ".xlsx". Between them is the name part, "_" and the ISO date. |
| ExcelService.FileNameExample | src/services/ExcelService.ts:67 | "John  Smith" on 2024-01-10 gives "MITL_Timesheet_John_Smith_2024-01-10.xlsx". |
| ExcelService.ExportToExcel | src/services/ExcelService.ts:12-67 | It fails with "No entries to export" exactly when the list is empty. Otherwise: the layout, sheet "Timesheet", widths 12,10,10,10,12,12,45 and `MITL_Timesheet_<name>_<date>.xlsx`. |
| ExcelService.RowsFitColumns | src/services/ExcelService.ts:21-63 | Labels and widths each number seven, and no row has more cells. |
| ExcelService.ProfileRows | src/services/ExcelService.ts:26-27 | An empty name or student number prints as "N/A". |
| ExcelService.PayPeriodRow | src/services/ExcelService.ts:18-28 | The pay period runs from the last list element's date to the first's. |
| ExcelService.StartDate | src/services/ExcelService.ts:18 | The period starts at the last list element's date, or "N/A" for an empty list. |
| ExcelService.EndDate | src/services/ExcelService.ts:19 | The period ends at the first list element's date, or "N/A" for an empty list. |
| ExcelService.TotalsRow | src/services/ExcelService.ts:46-49 | Row 10+n+1 is five empty cells, "TOTAL HOURS:" and the total to two decimals. |
| ExcelService.EightHoursText | src/services/ExcelService.ts:49 | 800 hundredths print as "8.00" and read back as 800. |
| ExcelService.SingleEntryExample | src/services/ExcelService.ts:21-55 | One 8-hour entry gives 19 rows: its data row at index 10 and the total "8.00" at index 12. |
| TimesheetApp.Insert | timesheet_calculator.tsx:74 | Inserting adds exactly one element and keeps all the others. |
| TimesheetApp.SortByKey | timesheet_calculator.tsx:74 | The sort, for any comparator key, keeps the length and is a permutation. |
| TimesheetApp.InsertDescending | timesheet_calculator.tsx:74 | Inserting into a list in descending key order keeps it in that order. |
| TimesheetApp.SortIsDescending | timesheet_calculator.tsx:74 | The sorted list is in descending key order. |
| TimesheetApp.SortByDateDesc | timesheet_calculator.tsx:74 | Sorting by date keeps the length, is a permutation and leaves the list newest first. |
| TimesheetApp.DateKey | timesheet_calculator.tsx:74 | The sort key is the day number of the entry's date, or 0 when the date does not parse. |
| TimesheetApp.InsertStable | timesheet_calculator.tsx:74 | An inserted entry goes after the entries of its own key already in the list. |
| TimesheetApp.SortIsStable | timesheet_calculator.tsx:74 | Entries of the same key keep their relative order. |
| TimesheetApp.SortByDateIsStable | timesheet_calculator.tsx:74 | Entries of the same date keep their relative order through the date sort. |
| TimesheetApp.SortKeepsSorted | timesheet_calculator.tsx:74 | A list already in descending key order is unchanged by the sort. |
| TimesheetApp.AddToSortedInserts | timesheet_calculator.tsx:74 | Adding to a newest-first list places the new entry after every entry dated on or after it. |
| TimesheetApp.RemoveId | timesheet_calculator.tsx:94 | An entry survives exactly when it was there and has a different id. |
| TimesheetApp.RemoveIdOfConcat | timesheet_calculator.tsx:94 | The filter works piece by piece, so the survivors keep their order. |
| TimesheetApp.RemoveAbsentId | timesheet_calculator.tsx:94 | Deleting an id no entry has changes nothing. |
| TimesheetApp.RemoveIdDescending | timesheet_calculator.tsx:94 | Deleting keeps a list in descending key order in that order. |
| TimesheetApp.RemoveIdNewestFirst | timesheet_calculator.tsx:94 | Deleting keeps a newest-first list newest first. |
| TimesheetApp.RemoveInserted | timesheet_calculator.tsx:74-94 | Deleting a freshly inserted entry by its unique id restores the list. |
| TimesheetApp.DayName | timesheet_calculator.tsx:65 | The stored day is the short name of the date's own weekday, or "Invalid Date". |
| TimesheetApp.DayNameAsWritten | timesheet_calculator.tsx:65 | As written, a parsable date gets one of the seven short day names and any other text gets "Invalid Date". |
| TimesheetApp.DayNameShiftsWest | timesheet_calculator.tsx:65 | As written, a device west of UTC names the previous day. On UTC or east of it, the name is right. |
| TimesheetApp.DayNameExample | timesheet_calculator.tsx:65 | 2024-01-10 is a Wednesday, but on UTC-5 the written code stores "Tue". |
| TimesheetApp.MergesAreTitleRows | timesheet_calculator.tsx:172-176 | The merged rows are exactly the three title rows, each spanning the seven columns. |
| TimesheetApp.BandOf | timesheet_calculator.tsx:185-222 | Each band covers exactly its rows: the title rows 0-2, the profile rows 4-7, the column header row 9, the entry rows, the row after the blank row below them, and the plain rows elsewhere. |
| TimesheetApp.StyleCells | timesheet_calculator.tsx:178-224 | Every cell of the seven columns exists, keeps its text (or "" if it was missing) and gets its row's band. Other cells are untouched. |
| TimesheetApp.HeaderHasNoTotal | timesheet_calculator.tsx:131-142 | No header row holds "TOTAL HOURS:". |
| TimesheetApp.TotalTextIsNotLabel | timesheet_calculator.tsx:157 | A printed total is never the totals label. |
| TimesheetApp.TrailerTotalRow | timesheet_calculator.tsx:156-163 | Among the trailer rows, only the second holds "TOTAL HOURS:". |
| TimesheetApp.TotalsBandIsTotalsRow | timesheet_calculator.tsx:156-222 | The row styled as the totals band is exactly the row holding "TOTAL HOURS:", if no entry field is that text. |
| TimesheetApp.PayPeriodSpansEntries | src/services/ExcelService.ts:18-19 | On a newest-first list, the period runs from the oldest entry's date to the newest one's, and every entry's date lies between the two. |
| TimesheetApp.DataBandsAlternate | timesheet_calculator.tsx:206-215 | The data band covers exactly the entry rows. The first is unshaded and the fill alternates. |
| TimesheetApp.OrElse | timesheet_calculator.tsx:26-27 | `a || b` gives a non-empty a, otherwise b. |
| TimesheetApp.NewEntry | timesheet_calculator.tsx:64-72 | The new entry has the form's fields, the date's weekday name, the given id, and hours written exactly as `toFixed(2)` writes the rounded hours, which read back as those hours. |
| TimesheetApp.App.constructor | timesheet_calculator.tsx:5-22 | The form starts blank with break "0", the view at home, and state loaded from the slot. |
| TimesheetApp.App.SaveData | timesheet_calculator.tsx:24-31 | Each profile field comes from the argument when non-empty, else from state. A given entry list, even empty, replaces. The time is stamped. |
| TimesheetApp.App.LoadData | timesheet_calculator.tsx:33-40 | A filled slot sets the profile and entries. An empty slot changes nothing. |
| TimesheetApp.App.AddEntry | timesheet_calculator.tsx:52-90 | Missing times, then a missing name, change nothing but the view. Otherwise the list becomes the sorted old list plus the new entry and is saved, and the form resets. |
| TimesheetApp.App.Commit | timesheet_calculator.tsx:74-89 | The accepted branch: the list becomes the date sort of the old list plus the entry and is saved with the profile. The form resets to a blank one for today and the view goes home. |
| TimesheetApp.App.DeleteEntry | timesheet_calculator.tsx:92-98 | Once confirmed, exactly the entries with the id go and the rest are saved. Unconfirmed, nothing changes. |
| TimesheetApp.App.SaveProfile | timesheet_calculator.tsx:100-108 | An empty name is refused and nothing is stored. Otherwise the profile is saved with the current entries. |
| TimesheetApp.App.ClearAllData | timesheet_calculator.tsx:110-116 | Once confirmed, the list is emptied and saved with the profile kept. |
| TimesheetApp.App.WeekHours | timesheet_calculator.tsx:232-243 | The result is the week summary from the start of the local Sunday: the sum of the hours of exactly the entries dated that Sunday or later. It is a number exactly when those entries have readable hours, and never exceeds the total when hours are readable. |
| TimesheetApp.App.ExportToExcel | timesheet_calculator.tsx:120-230 | An empty list is refused. The app alerts "⚠️ No entries to export" at timesheet_calculator.tsx:122; the model reports the exporter's message "No entries to export" (src/services/ExcelService.ts:13) instead. Otherwise: the exporter's rows, file name, sheet "Timesheet" and column widths, and the title merges. Every grid cell exists, keeps its text and gets its row's band. Cells outside the grid are untouched. |
| TimesheetApp.AddToList | timesheet_calculator.tsx:74 | After an add, the list has one more entry, is a permutation of the old list plus the new entry, and is newest first. |
| TimesheetApp.AddThenDelete | timesheet_calculator.tsx:52-98 | Adding an entry and then deleting its fresh id gives back a newest-first list unchanged. |
| TimesheetApp.ClearThenReload | timesheet_calculator.tsx:110-116 | After a clear, reloading from the slot shows the same profile and no entries. |
| TimesheetApp.SaveEntriesThenProfile | timesheet_calculator.tsx:24-31 | Saving entries and then the profile stores both. |
| TimesheetApp.ProfileNeedsName | timesheet_calculator.tsx:100-104 | A profile save without a name is refused and stores nothing. |

## Left out

- The screens, navigation, toasts (`setTimeout`) and dialogs. `alert` is not modelled, and `confirm` is a boolean parameter.
- The spreadsheet library calls (`aoa_to_sheet`, `book_append_sheet`, `write`, `writeFile`), base64 encoding, file writing and sharing.
  - The sheet `aoa_to_sheet` makes is a parameter of `TimesheetApp.App.ExportToExcel`. It is required to hold one cell per row element.
- Font, colour, border and alignment values of each style. Only the band a row falls into is modelled.
- AsyncStorage and JSON encoding. The stored value is always a complete `AppData`.
  - A stored blob missing some keys is not modelled.
  - A patch key present with the value `undefined` is not modelled.
- The `async` ordering of concurrent saves.
- Floating point. Hours are exact reals, and stored hours are integer hundredths.
- JsText.Fixed2Value: reads only the "[-]digits.dd" form `toFixed(2)` writes. Any other `hours` text counts as NaN, although `parseFloat` would read a prefix of it.
- JsText.ParseInt: unbounded integers. Digit runs past 2^53, where JavaScript loses precision, are not modelled.
- TimeUtils.CalculateHours: requires each time to be empty or "HH:MM". Ill-formed times, where `Number` gives NaN, are not modelled.
- JsDate.ParseDate: reads only the "YYYY-MM-DD" form. Other forms that `new Date` accepts count as an invalid date. An ISO text naming a day the month does not have (such as "2024-02-30") is an invalid date here too, although some engines roll it over into the next month.
- TimeUtils.LocalDay: the time zone is a fixed offset. Daylight-saving changes within a week are not modelled.
- TimesheetApp.DateKey: an unparsable date is ranked as day 0. In the source the comparator then returns NaN, and the order is up to the JavaScript engine.
- TimesheetApp.NewEntry: stores the corrected weekday name (`TimesheetApp.DayName`), not the zone-dependent one the code writes (see Findings).
- TimesheetApp.App.AddEntry: stores the corrected weekday name (`TimesheetApp.DayName`), not the zone-dependent one the code writes (see Findings).
- TimesheetApp.App.WeekHours: counts from the start of the local Sunday's date (`TimeUtils.WeekStart`), not from the instant the code computes (see Findings).
- TimesheetApp.App.ExportToExcel: an empty list yields the exporter's error message, not the app's own alert text; `alert` itself is not modelled.
- The clock and locale renderings (`Date.now()`, `toISOString`, `toLocaleString`) are parameters.

## Findings

| source | as written | input that shows it | evidently intended | confidence | as-written member | corrected member |
|---|---|---|---|---|---|---|
| src/utils/TimeUtils.ts:14-21 | `weekStart` is today moved back to Sunday with the current time of day kept, and it is compared with dates parsed as midnight UTC. | Device on UTC, now 2024-01-10T12:00Z, an entry dated "2024-01-07" (that week's Sunday) | The week starts at the beginning of Sunday, so Sunday's entries count | not executed | TimeUtils.SundayExcludedExample | TimeUtils.WeekStartCountsFromSunday |
| timesheet_calculator.tsx:65 | The weekday name is taken from the date parsed as midnight UTC but rendered in the device's time zone. | Device on UTC-5, date "2024-01-10" (a Wednesday) | The stored day is "Wed", the name of the entry's own date | not executed | TimesheetApp.DayNameExample | TimesheetApp.DayName |
