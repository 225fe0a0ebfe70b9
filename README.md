# SubTrack calendar core in Dafny

SubTrack is a personal-finance app built on .NET MAUI. Its calendar page shows a month grid with a weekday header row. Below the grid it lists the expenses dated in the displayed month, with a balance equal to the sum of their negated amounts. Previous and next buttons move the displayed month. Two add forms emit a new operation or expense when the title is not blank and the amount is positive. Three value converters turn month numbers into French month names, and recurring flags into text, and back.

This project models that logic and proves properties of it:

- `common.dfy`: `Option`, `Result`, the exception kinds, the boxed `object?` a converter receives, and the property-change notification names.
- `text.dfy`: `string.ToLower` (ASCII and Latin-1 capitals), `IsNullOrEmpty` and `IsNullOrWhiteSpace`.
- `gregorian.dfy`: the `System.DateTime` arithmetic the grid needs.
  - The leap-year rule and the cumulative month tables.
  - A day count from 0001-01-01.
  - `DayOfWeek`, with Sunday = 0.
- `calendar_grid.dfy`: the grid of `SubTrack/Controls/CalendarComponent.xaml.cs`.
  - The Monday-first start offset, the row count and the placement of each day.
  - The header labels and the "today" flag.
  - The `Layout` the grid must end up holding.
  - The class whose `GenerateCalendar` fills the grid in loops.
- `month_cursor.dfy`: the (year, month) cursor and its previous/next steps, with an index numbering as the reference.
- `calendar_control.dfy`: the `SubTrack.Controls` revision of the control, covering its fields, its button handlers, `CreateCalendarGrid`, `AddDayLabels` and `AddDayNumbers`.
- `calendar_item_view_model.dfy`: the calendar view-model. Its setters report the notifications they raise.
- `models.dfy`, `monthly_expenses.dfy`, `expense_store.dfy`, `calendar_page_view_model.dfy`: the expense record, the month filter and the balance, an abstract expense table, and the calendar page view-model over them.
- `add_forms.dfy`: the two add forms.
- `converters.dfy`: `NumberToMonthConverter`, plus one module for `OperationToTextConverter` and `ExpenseToTextConverter`, whose code is the same.

## Model

| member | source | states |
|---|---|---|
| Text.IsNullOrWhiteSpace | SubTrack/ViewModels/AddMonthlyExpenseViewModel.cs:94 | `string.IsNullOrWhiteSpace`: null, or every character white space (also AddFinancialOperationViewModel.cs:100) |
| Text.IsNullOrEmpty | SubTrack/ViewModels/CalendarPageViewModel.cs:164-167 | `string.IsNullOrEmpty`: null or the empty string |
| Text.ToLower | SubTrack/Converters/NumberToMonthConverter.cs:40 | the result has the input's length, holds no capital, keeps every non-capital of the input in place, and is left unchanged by lower-casing any of its characters again |
| Text.ToLowerIdempotent | SubTrack/Converters/NumberToMonthConverter.cs:40 | lower-casing twice gives the same string as lower-casing once |
| Gregorian.IsLeapYear | SubTrack/Controls/CalendarComponent.xaml.cs:203 | the Gregorian rule `DateTime.DaysInMonth` applies: divisible by 4 and not by 100, or divisible by 400 |
| Gregorian.DayNumber | SubTrack/Controls/CalendarComponent.xaml.cs:175-176 | days from 0001-01-01 to a date, the count `DateTime.DayOfWeek` derives the weekday from |
| Gregorian.MonthLength | SubTrack/Controls/CalendarComponent.xaml.cs:201-204 | 30 days for April, June, September and November; 31 for the other months except February; February has 29 exactly in Gregorian leap years and 28 otherwise |
| Gregorian.DaysInMonth | SubTrack/Controls/CalendarComponent.xaml.cs:201-204 | `DateTime.DaysInMonth` gives a length in 28..31 when year is in 1..9999 and month in 1..12; otherwise it is an `ArgumentOutOfRange` error |
| Gregorian.DayOfWeek | SubTrack/Controls/CalendarComponent.xaml.cs:175-176 | the weekday (Sunday = 0) is in 0..6 and agrees, for every date, with Sakamoto's weekday formula, an independent reference that does not use the day count |
| Gregorian.SakamotoAgrees | SubTrack/Controls/CalendarComponent.xaml.cs:175-176 | the day count from 0001-01-01 plus one, taken modulo 7, equals Sakamoto's weekday for every year, month and day |
| Gregorian.EpochIsMonday | SubTrack/Controls/CalendarComponent.xaml.cs:175-176 | 1 January of year 1 is a Monday: with `FirstWeekdayStep` it fixes the weekday of every first of the month from there on |
| Gregorian.FirstWeekdayStep | SubTrack/Controls/CalendarComponent.xaml.cs:175-179 | the weekday of the first of the next month is this month's first weekday moved on by the month's length, December to January included |
| Gregorian.NextMonthStart | SubTrack/Controls/CalendarComponent.xaml.cs:175-179 | the first of the next month comes exactly `MonthLength` days after the first of this month, across year ends too |
| Gregorian.FirstOf2025IsWednesday | SubTrack/Controls/CalendarComponent.xaml.cs:175-176 | 1 January 2025 has .NET weekday 3 (Wednesday) |
| CalendarGrid.StartOffset | SubTrack/Controls/CalendarComponent.xaml.cs:175-177 | the remapped offset is in 0..6; Sunday maps to 6 and Monday to 0; it is the Monday-first weekday of day 1 |
| CalendarGrid.StartOffsetOfJanuary2025 | SubTrack/Controls/CalendarComponent.xaml.cs:175-177 | January 2025 starts in column 2 |
| CalendarGrid.RowCount | SubTrack/Controls/CalendarComponent.xaml.cs:212-220 | the rows below the header hold every day (`(rows-1)*7 >= days+offset`) with no spare row (`(rows-2)*7 < days+offset`), and rows is between 5 and 7 |
| CalendarGrid.CeilDiv | SubTrack/Controls/CalendarComponent.xaml.cs:219 | `Math.Ceiling(a / 7.0)` on these integers is the least q with `q*7 >= a` |
| CalendarGrid.DayRow | SubTrack/Controls/CalendarComponent.xaml.cs:186 | row r of zero-based day i holds the grid positions 7(r - 1) .. 7r - 1, and position i + offset is among them (row 0 stays for the header) |
| CalendarGrid.DayColumn | SubTrack/Controls/CalendarComponent.xaml.cs:187 | the column is in 0..6, and row and column together give back the position: 7(row - 1) + column = i + offset |
| CalendarGrid.IsActualDay | SubTrack/Controls/CalendarComponent.xaml.cs:183 | defines the "today" flag: day i + 1 is today's day and the displayed month and year are today's |
| CalendarGrid.HeaderCells | SubTrack/Controls/CalendarComponent.xaml.cs:165-172 | the header has seven labels, all in row 0, the k-th in column k, from "Lun" (Monday) to "Dim" (Sunday) |
| CalendarGrid.PlacementInverse | SubTrack/Controls/CalendarComponent.xaml.cs:186-187 | a placed day can be read back from its (row, column); its column is in 0..6 and its row is at least 1 |
| CalendarGrid.PlacementInjective | SubTrack/Controls/CalendarComponent.xaml.cs:186-187 | two different days never share a cell |
| CalendarGrid.DaysFitRows | SubTrack/Controls/CalendarComponent.xaml.cs:181-192 | every day of the month lands below the header and inside the rows that were added |
| CalendarGrid.ConsecutiveDays | SubTrack/Controls/CalendarComponent.xaml.cs:186-187 | day 1 is at row 1, column offset; each next day moves one column right, or to column 0 of the next row after column 6 |
| CalendarGrid.LayoutFitsGrid | SubTrack/Controls/CalendarComponent.xaml.cs:164-192 | every child lies in the 7-column grid; row 0 holds exactly the seven children Lun..Dim in columns 0..6 |
| CalendarGrid.LayoutCellsDistinct | SubTrack/Controls/CalendarComponent.xaml.cs:164-192 | no two children occupy the same (row, column) |
| CalendarGrid.ActualDayUnique | SubTrack/Controls/CalendarComponent.xaml.cs:183 | for a valid "now", at most one day is flagged, and one is flagged exactly when the displayed year and month are today's |
| CalendarGrid.CalendarGridView.GenerateCalendar | SubTrack/Controls/CalendarComponent.xaml.cs:144-193 | in range, the grid ends with 7 columns, `RowCount` rows, and the header cells followed by one cell per day, as `Layout` describes; out of range it fails with `ArgumentOutOfRange` after clearing the grid and adding the columns |
| MonthCursor.Next | SubTrack.Controls/CalendarComponent.xaml.cs:154-166 | "next" (December rolls over to January of the following year) keeps a month in 1..12 and moves the cursor exactly one month forward (also CalendarItemViewModel.cs:121-132) |
| MonthCursor.Previous | SubTrack.Controls/CalendarComponent.xaml.cs:140-152 | "previous" (January rolls back to December of the year before) keeps a month in 1..12 and moves the cursor exactly one month back (also CalendarItemViewModel.cs:105-116) |
| MonthCursor.FromIndexInverse | SubTrack.Controls/CalendarComponent.xaml.cs:140-166 | every valid cursor is the cursor of its own month index, so the numbering of cursors is a bijection |
| MonthCursor.IndexInjective | SubTrack.Controls/CalendarComponent.xaml.cs:140-166 | valid cursors with the same month index are equal |
| MonthCursor.NextIsSuccessor | SubTrack.Controls/CalendarComponent.xaml.cs:154-166 | "next" keeps the month in 1..12 and moves exactly one month forward |
| MonthCursor.PreviousIsPredecessor | SubTrack.Controls/CalendarComponent.xaml.cs:140-152 | "previous" keeps the month in 1..12 and moves exactly one month back |
| MonthCursor.PreviousNextRoundTrip | SubTrack.Controls/CalendarComponent.xaml.cs:140-166 | previous after next, and next after previous, give back the starting month |
| MonthCursor.AdvanceIndex | SubTrack.Controls/CalendarComponent.xaml.cs:154-166 | n presses of "next" move a valid cursor exactly n months forward |
| MonthCursor.TwelveNexts | SubTrack.Controls/CalendarComponent.xaml.cs:154-166 | twelve presses of "next" give the same month of the next year |
| CalendarControl.DayNamePrefixes | SubTrack.Controls/CalendarComponent.xaml.cs:5 | the first three letters of each full day name are Lun..Dim, the labels of the other revision |
| CalendarControl.Rendered | SubTrack.Controls/CalendarComponent.xaml.cs:38-51 | the control shows a grid exactly when the year and month are in the `DateTime` range |
| CalendarControl.CreateCalendarGrid | SubTrack.Controls/CalendarComponent.xaml.cs:53-68 | in range: an empty grid with 7 columns and `RowCount` rows; otherwise an `ArgumentOutOfRange` error |
| CalendarControl.AddDayLabels | SubTrack.Controls/CalendarComponent.xaml.cs:70-87 | the grid gains exactly the seven header cells, in order, and nothing else changes |
| CalendarControl.AddDayNumbers | SubTrack.Controls/CalendarComponent.xaml.cs:89-115 | the grid gains exactly one unflagged cell per day, at its placement, in day order |
| CalendarControl.CalendarComponent.constructor | SubTrack.Controls/CalendarComponent.xaml.cs:9-21 | the cursor is today's month and the content is the rendered grid |
| CalendarControl.CalendarComponent.GenerateCalendar | SubTrack.Controls/CalendarComponent.xaml.cs:38-51 | the cursor is unchanged; it succeeds exactly in the `DateTime` range, with the grid for the cursor as content; outside it the `ArgumentOutOfRange` exception escapes and the content stays null |
| CalendarControl.CalendarComponent.OnPreviousButtonClicked | SubTrack.Controls/CalendarComponent.xaml.cs:140-152 | the cursor becomes its predecessor; month validity is kept; the content is redrawn for it; the handler throws `ArgumentOutOfRange` exactly when the new month is outside the `DateTime` range (from January of year 1) |
| CalendarControl.CalendarComponent.OnNextButtonClicked | SubTrack.Controls/CalendarComponent.xaml.cs:154-166 | the cursor becomes its successor; month validity is kept; the content is redrawn for it; the handler throws `ArgumentOutOfRange` exactly when the new month is outside the `DateTime` range (from December 9999) |
| CalendarControl.NextThenPrevious | SubTrack.Controls/CalendarComponent.xaml.cs:140-166 | a "next" click followed by a "previous" click restores the month and its grid; the first click fails exactly when the next month is out of range, the second exactly when the original one is |
| CalendarItemViewModels.CalendarItemViewModel.constructor | SubTrack/ViewModels/CalendarItemViewModel.cs:89-98 | year and month are today's and the month name matches the month |
| CalendarItemViewModels.CalendarItemViewModel.SetCurrentYear | SubTrack/ViewModels/CalendarItemViewModel.cs:28-38 | stores the year; notifies `CurrentYear` only when the value changed |
| CalendarItemViewModels.CalendarItemViewModel.SetCurrentMonthName | SubTrack/ViewModels/CalendarItemViewModel.cs:61-72 | stores the name; notifies `CurrentMonthName` only when it changed |
| CalendarItemViewModels.CalendarItemViewModel.SetCurrentMonth | SubTrack/ViewModels/CalendarItemViewModel.cs:44-56 | an unchanged value does nothing and notifies nothing; a new month in 1..12 sets the name to the matching French name and notifies; any other month is stored and then throws before any notification |
| CalendarItemViewModels.CalendarItemViewModel.OnPreviousMonth | SubTrack/ViewModels/CalendarItemViewModel.cs:105-116 | the cursor becomes its predecessor; from a valid state the month and name stay consistent; `CurrentMonth` is always notified and `CurrentYear` exactly when the year changed |
| CalendarItemViewModels.CalendarItemViewModel.OnNextMonth | SubTrack/ViewModels/CalendarItemViewModel.cs:121-132 | the cursor becomes its successor; from a valid state the month and name stay consistent; `CurrentMonth` is always notified and `CurrentYear` exactly when the year changed |
| MonthlyExpenses.MonthFilter | SubTrack/ViewModels/CalendarPageViewModel.cs:102-109 | the listed expenses are never more than the stored ones, and each has the displayed month and year |
| MonthlyExpenses.NegSum | SubTrack/ViewModels/CalendarPageViewModel.cs:119 | defines the balance of a list: the sum of the negated amounts |
| MonthlyExpenses.RemoveAt | SubTrack/ViewModels/CalendarPageViewModel.cs:132 | `Remove` of the element at position k: one element shorter, and the same elements as before less exactly that one occurrence |
| MonthlyExpenses.RemoveId | SubTrack/ViewModels/CalendarPageViewModel.cs:133 | the store after the delete is no larger than before and holds no record with the deleted id |
| MonthlyExpenses.IsComplete | SubTrack/ViewModels/CalendarPageViewModel.cs:164-167 | defines the page's check: title and category not null or empty, amount > 0, date not the default |
| MonthlyExpenses.MonthFilterMembers | SubTrack/ViewModels/CalendarPageViewModel.cs:97-112 | the listed expenses are exactly the stored ones dated in the displayed month and year; the recurring flag plays no part |
| MonthlyExpenses.MonthFilterConcat | SubTrack/ViewModels/CalendarPageViewModel.cs:102-109 | filtering keeps store order: the filter of a concatenation is the concatenation of the filters |
| MonthlyExpenses.RecurringExpensesStayInTheirMonth | SubTrack/ViewModels/CalendarPageViewModel.cs:104-105 | a January expense and a recurring January expense are both listed in January and neither in March |
| MonthlyExpenses.NegSumConcat | SubTrack/ViewModels/CalendarPageViewModel.cs:119 | the balance of two lists together is the sum of their balances |
| MonthlyExpenses.NegSumRemoveAt | SubTrack/ViewModels/CalendarPageViewModel.cs:132-134 | removing one expense raises the balance by its amount |
| MonthlyExpenses.NegSumOfPositiveAmounts | SubTrack/ViewModels/CalendarPageViewModel.cs:119 | with positive amounts (the add forms' `amount > 0` guard, for the finite amounts modelled) the balance is at most 0, and below 0 when the list is not empty |
| MonthlyExpenses.SumOfNegatedAmounts | SubTrack/ViewModels/CalendarPageViewModel.cs:119 | the loop total equals the sum of the negated amounts |
| MonthlyExpenses.FindFirstById | SubTrack/ViewModels/CalendarPageViewModel.cs:129 | finds the first position holding that id, or reports that no element has it |
| MonthlyExpenses.RemoveIdMembers | SubTrack/ViewModels/CalendarPageViewModel.cs:133 | deleting an id from the store removes exactly the records with that id |
| MonthlyExpenses.RemoveAbsentId | SubTrack/ViewModels/CalendarPageViewModel.cs:133 | deleting an id no record has leaves the store as it was |
| MonthlyExpenses.MonthFilterAfterDelete | SubTrack/ViewModels/CalendarPageViewModel.cs:127-136 | with unique ids, deleting the id of the k-th listed expense from the store and listing again gives the old list without its k-th element |
| ExpenseStores.RemoveIdKeepsUniqueIds | SubTrack/ViewModels/CalendarPageViewModel.cs:133 | deleting by id keeps the store's ids unique |
| ExpenseStores.ExpenseStore.Add | SubTrack/ViewModels/CalendarPageViewModel.cs:172 | the record is appended with the next fresh id; ids stay unique |
| ExpenseStores.ExpenseStore.DeleteById | SubTrack/ViewModels/CalendarPageViewModel.cs:133 | every record with that id is removed; ids stay unique |
| CalendarPage.CalendarPageViewModel.constructor | SubTrack/ViewModels/CalendarPageViewModel.cs:72-88 | the calendar starts on today's month and the list and balance are those of the store for that month |
| CalendarPage.CalendarPageViewModel.SetCurrentBalance | SubTrack/ViewModels/CalendarPageViewModel.cs:52-63 | stores the balance; notifies only on a change; the list is untouched |
| CalendarPage.CalendarPageViewModel.UpdateCurrentBalance | SubTrack/ViewModels/CalendarPageViewModel.cs:117-120 | the balance becomes the sum of the negated amounts of the list |
| CalendarPage.CalendarPageViewModel.LoadExpenses | SubTrack/ViewModels/CalendarPageViewModel.cs:97-112 | the list becomes the month filter of the store, in store order, and the balance its negated sum |
| CalendarPage.CalendarPageViewModel.DeleteExpense | SubTrack/ViewModels/CalendarPageViewModel.cs:127-136 | with a match, only the first listed expense with that id is removed, the id is deleted from the store, the balance rises by its amount and the page stays consistent; with no match the list, store and balance are unchanged |
| CalendarPage.CalendarPageViewModel.OnExpenseAdded | SubTrack/ViewModels/CalendarPageViewModel.cs:159-175 | null is ignored; an expense with an empty title, amount <= 0, default date or empty category fails with `InvalidOperation` and nothing changes; a complete one is appended to the store and listed exactly when it is dated in the displayed month |
| CalendarPage.CalendarPageViewModel.OnCalendarPropertyChanged | SubTrack/ViewModels/CalendarPageViewModel.cs:198-205 | a `CurrentMonth` or `CurrentYear` notification reloads; any other leaves the list and balance unchanged |
| CalendarPage.CalendarPageViewModel.DeliverCalendarNotifications | SubTrack/ViewModels/CalendarPageViewModel.cs:198-205 | a batch with a month or year change leaves the page consistent; a batch without one changes nothing |
| CalendarPage.CalendarPageViewModel.PreviousMonth | SubTrack/ViewModels/CalendarPageViewModel.cs:84 | after the calendar's "previous" command the page lists the new month's expenses with their balance; the store is untouched |
| CalendarPage.CalendarPageViewModel.NextMonth | SubTrack/ViewModels/CalendarPageViewModel.cs:84 | after the calendar's "next" command the page lists the new month's expenses with their balance; the store is untouched |
| AddForms.CanSubmit | SubTrack/ViewModels/AddMonthlyExpenseViewModel.cs:94 | defines the guard of both forms: title not null or white space and amount > 0 (also AddFinancialOperationViewModel.cs:100) |
| AddForms.CanSubmitChecked | SubTrack/ViewModels/CalendarPageViewModel.cs:164-167 | the form guard with the page's category and date checks added (corrected definition of the second finding) |
| AddForms.CheckedGuardAcceptedByPage | SubTrack/ViewModels/CalendarPageViewModel.cs:164-170 | with the checked guard every emitted expense passes the page's check, and every expense the page accepts with a non-blank title passes the guard |
| AddForms.AddFinancialOperationViewModel.constructor | SubTrack/ViewModels/AddFinancialOperationViewModel.cs:74-89 | the five fixed categories in order, the date preset to "now", the other fields at their defaults |
| AddForms.AddFinancialOperationViewModel.ValidateAddOperation | SubTrack/ViewModels/AddFinancialOperationViewModel.cs:98-118 | an operation is emitted exactly when the title is not null or white space and the amount is positive (the category is not checked); it copies every field |
| AddForms.AddMonthlyExpenseViewModel.constructor | SubTrack/ViewModels/AddMonthlyExpenseViewModel.cs:70-83 | the five fixed categories in order, the date preset to "now", the other fields at their defaults |
| AddForms.AddMonthlyExpenseViewModel.ValidateAddExpense | SubTrack/ViewModels/AddMonthlyExpenseViewModel.cs:92-110 | an expense is emitted exactly when the title is not null or white space and the amount is positive (the category is not checked); it copies every field |
| AddForms.EmittedExpenseAcceptedByPage | SubTrack/ViewModels/CalendarPageViewModel.cs:164-167 | an expense the form emits passes the page's check exactly when its category is not null or empty and its date is not the default |
| AddForms.DefaultCategoryRejectedByPage | SubTrack/ViewModels/CalendarPageViewModel.cs:167 | an expense emitted with the form's default (null) category is rejected by the page |
| NumberToMonthConverter.Convert | SubTrack/Converters/NumberToMonthConverter.cs:12-34 | succeeds exactly on ints in 1..12; any other int is an `ArgumentOutOfRange` error and a non-int an `Argument` error |
| NumberToMonthConverter.ConvertBack | SubTrack/Converters/NumberToMonthConverter.cs:36-58 | a success is a month in 1..12 from a string; an unrecognised string is an `ArgumentOutOfRange` error and a non-string an `Argument` error |
| NumberToMonthConverter.ConvertAgreesWithMonthList | SubTrack/Converters/NumberToMonthConverter.cs:16-29 | month m converts to the m-th French name, the same list the calendar view-model uses |
| NumberToMonthConverter.RoundTrip | SubTrack/Converters/NumberToMonthConverter.cs:16-55 | `ConvertBack(Convert(m)) == m` for every m in 1..12 |
| NumberToMonthConverter.ConvertInjective | SubTrack/Converters/NumberToMonthConverter.cs:16-29 | different months have different names |
| NumberToMonthConverter.ConvertBackIgnoresCase | SubTrack/Converters/NumberToMonthConverter.cs:40 | a string and its lower-case form convert back alike |
| NumberToMonthConverter.ConvertBackExactly | SubTrack/Converters/NumberToMonthConverter.cs:38-55 | `ConvertBack(s)` gives m exactly when m is in 1..12 and s lower-cases to the lower-cased name of m |
| NumberToMonthConverter.UpperCaseFebruary | SubTrack/Converters/NumberToMonthConverter.cs:40-43 | "FÉVRIER" converts back to 2 |
| RecurrenceTextConverter.Convert | SubTrack/Converters/OperationToTextConverter.cs:10-17 | succeeds exactly on bools; anything else is an error (ExpenseToTextConverter.cs has the same code) |
| RecurrenceTextConverter.ConvertBack | SubTrack/Converters/OperationToTextConverter.cs:19-35 | a success comes from a string; null, a non-string or an unrecognised string is an error (ExpenseToTextConverter.cs has the same code) |
| RecurrenceTextConverter.ConvertInjective | SubTrack/Converters/OperationToTextConverter.cs:14 | true and false get different labels |
| RecurrenceTextConverter.ConvertBackAccepts | SubTrack/Converters/OperationToTextConverter.cs:23-31 | a string converts back to true exactly when it lower-cases to "recurrent", and to false exactly when it lower-cases to "not recurrent" |
| RecurrenceTextConverter.RoundTripTrue | SubTrack/Converters/ExpenseToTextConverter.cs:14-27 | true converts to "Recurrent", which converts back to true |
| RecurrenceTextConverter.RoundTripFailsForFalse | SubTrack/Converters/ExpenseToTextConverter.cs:14-31 | false converts to "Unique", which `ConvertBack` rejects |
| RecurrenceTextConverter.ConvertBackCorrected | SubTrack/Converters/OperationToTextConverter.cs:19-35 | the way back with "unique" also accepted as false (corrected definition of the first finding); a success comes from a string and every failure is a plain exception |
| RecurrenceTextConverter.CorrectedRoundTrip | SubTrack/Converters/OperationToTextConverter.cs:14-31 | with "unique" also accepted as false, every flag survives the round trip and every string accepted before converts the same way |

## Left out

- Frame and label construction, colours, fonts, the navigation buttons' layout, `Shell` navigation and the platform entry point are not modelled. They are UI with no logic to state.
- `async`/`await` is not modelled. Each awaited step runs in sequence.
- `INotifyPropertyChanged` is modelled through return values. Each setter returns the notifications it raised. The calendar page receives the calendar's notifications after the command returns, not inside each setter. The reload reads only the store and the calendar's year and month, so the final state is the same.
- SQL persistence is modelled as an abstract table. The SQLite tables and the Dapper calls are not modelled. `ExpenseStores.ExpenseStore` is a sequence of records.
- `ExpenseStores.ExpenseStore` is assumed to insert each record with a fresh id, to list every record in insertion order, and to delete every record with a given id. The code shown does not establish this:
  - `ExpenseDatabase.cs:68` lists with `SELECT * FROM Expenses` and no `ORDER BY`; the "in store order" of `CalendarPage.CalendarPageViewModel.LoadExpenses` and the "appended at the end" of `CalendarPage.CalendarPageViewModel.OnExpenseAdded` rest on insertion order.
  - `AddExpenseAsync`, `GetAllExpensesAsync` and `DeleteExpenseByIdAsync`, which the calendar page calls, are not part of this model (`Database.cs` does not define them).
  - `ExpenseDatabase.cs:96` passes a bare `int` as the parameter object for `@Id`.
  - `ExpenseDatabase.cs:82-83` binds `@Title` and the other parameters against `Expense` properties with other names.
- The `id` field of `Models.Expense` stands for the `ExpenseId` the page reads (`CalendarPageViewModel.cs:129`); `Expense.cs` declares no such property, so the id is the model's own field.
- `CalendarPage.CalendarPageViewModel.DeleteExpense`: its `Valid()` after the call (the deleted expense stays out of the next reload) rests on that store assumption.
- Amounts are `real`. `double` rounding is not modelled.
- MonthCursor.Next / MonthCursor.Previous: years are unbounded integers. The source's year is a 32-bit `int` without overflow checking, so `CurrentYear++` at `int.MaxValue` gives `int.MinValue` and `CurrentYear--` at `int.MinValue` gives `int.MaxValue`. The model does not wrap there, so `Index` moving by exactly one, `NextIsSuccessor`, `PreviousIsPredecessor`, `AdvanceIndex` and `TwelveNexts` hold for the model's years but not at those two edges.
- CalendarItemViewModels.CalendarItemViewModel.OnNextMonth: moves the cursor by `MonthCursor.Next`, so the wrap of `CurrentYear++` at `int.MaxValue` (`CalendarItemViewModel.cs:126`) is not modelled.
- CalendarItemViewModels.CalendarItemViewModel.OnPreviousMonth: moves the cursor by `MonthCursor.Previous`, so the wrap of `CurrentYear--` at `int.MinValue` (`CalendarItemViewModel.cs:110`) is not modelled.
- CalendarControl.CalendarComponent.OnNextButtonClicked / CalendarControl.CalendarComponent.OnPreviousButtonClicked: the `_currentYear++` / `_currentYear--` wrap is likewise not modelled. It takes about two billion clicks beyond year 9999 (or below year 1); every click out there fails with `ArgumentOutOfRange` anyway.
- NaN and infinite amounts are not modelled: `real` has neither. A NaN amount passes the `<= 0` guards (`AddMonthlyExpenseViewModel.cs:94`, `AddFinancialOperationViewModel.cs:100`, `CalendarPageViewModel.cs:165`) because `NaN <= 0` is false, and it would make the balance NaN (`CalendarPageViewModel.cs:119`); `MonthlyExpenses.NegSumOfPositiveAmounts` says nothing about such amounts.
- `DateTime.Now` is a parameter. The date part is checked against the calendar; the time of day is not looked at.
- `Text.ToLower` lower-cases only ASCII and Latin-1 capitals. Culture-specific lower-casing of other characters is not modelled.
- `DateTime` years outside 1..9999 are modelled as an `ArgumentOutOfRange` outcome for grid generation. In the `SubTrack.Controls` revision, that outcome is the exception escaping `GenerateCalendar` and the click handlers. The pure calendar arithmetic is stated for every year.
- Recurring expenses are listed only in their own month, because `LoadExpenses` compares month and year only (`CalendarPageViewModel.cs:104-105`); no recurrence carry-over exists to model.
- The balance is the sum of the negated amounts (`CalendarPageViewModel.cs:119`); budgets and incomes play no part in it.
- `ExpenseItemViewModel`'s demo data is not modelled.
- `FinancialOperation`'s property-changed plumbing is not modelled. The record is kept as a field list.
- `ExpenseToTextConverter` and `OperationToTextConverter` are one module, because their code is the same.

## Findings

| source | as written | input that shows it | evidently intended | confidence | as-written member | corrected member |
|---|---|---|---|---|---|---|
| SubTrack/Converters/OperationToTextConverter.cs:14-31 (and ExpenseToTextConverter.cs:14-31) | `Convert(false)` yields "Unique", but `ConvertBack` accepts only "recurrent" and "not recurrent" | `false` → "Unique" → `ConvertBack` throws | the label produced for false converts back to false | medium; not executed | RecurrenceTextConverter.RoundTripFailsForFalse | RecurrenceTextConverter.CorrectedRoundTrip |
| SubTrack/ViewModels/AddMonthlyExpenseViewModel.cs:94-109 (with CalendarPageViewModel.cs:164-170) | the form emits an expense whose category is not checked; the page throws `InvalidOperationException` (inside an `async void`) when the category is null or empty | a form submitted with a title and a positive amount but no category picked: category null → the page throws | the form only emits what the page accepts, checking the category too | medium; not executed | AddForms.DefaultCategoryRejectedByPage | AddForms.CheckedGuardAcceptedByPage |
