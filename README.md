# Vesta reservation front end — a Dafny model

Vesta is a React front end for booking the common areas of buildings. This
project models the parts of four of its components that hold logic:

- **Export to Excel** (`ExportExcel`). It builds one sheet per building.
  - Each building sheet is a 31 × 12 day-by-month grid of the current year's reservation times, filled in place.
  - When several reservations share a cell, their labels are joined with ", ".
  - It also builds a "Reservation History" sheet with one row per history entry of the current year.
  - The workbook is modelled by `Spreadsheet`: worksheets, single-letter A1-style addresses, merged ranges, and row and cell writes.
- **The dashboard's reservation table** (`ReservationTable`).
  - Sets the all-day rule (08:00 to 23:00, hours and minutes only) apart from the 12-hour "h:mm AM - h:mm PM" range.
  - Produces one striped row per reservation, or a message row.
- **The history page** (`History`).
  - The action wording.
  - The fetch URL, with the building name URI-encoded.
  - The "N/A" fallbacks of the table.
  - The page state: the menu toggle, the fetched history and the building filter.
- **The dashboard** (`Dashboard`).
  - The required-field check of the new-reservation form and the event it builds.
  - The create, update and delete payloads.
  - The component state, including the form reset after a successful create.

Supporting modules:
- `Wrappers`: Option and Result.
- `Text`: decimal digits.
- `Clock`: the date-time a JavaScript `Date` reports.
  - Its en-US 12-hour labels.
  - A reader that takes a label back to hour and minute.
- `Records`: the server's records.
  - JavaScript's `||` fallback on optional strings.
- `Uri`: `encodeURIComponent` (UTF-8 code units, percent escapes with upper-case hex).
  - A decoder, proved to invert it.

`new Date(text)` is a parameter `parse: string -> Stamp` wherever the code parses a string. Reservations carry their start and end already parsed. A `Stamp` is either a valid broken-down time or the Invalid Date; an Invalid Date is labelled "Invalid Date", as JavaScript does. The export's callbacks `formatAction`, `formatDate` and `formatTimeDisplay`, and the locale's `toLocaleDateString`, are function parameters.

The all-day rule compares only hours and minutes, with 08:00 and 23:00. These components hold no fully-booked or slot-validation logic, so none is modelled.

## Model

| member | source | states |
|---|---|---|
| Text.Decimal | src/components/ExportExcel.jsx:242 | the decimal text of a number is a non-empty digit string with no leading zero (it starts with '0' only for 0 itself), one digit exactly below 10 |
| Text.DecimalRoundTrip | src/components/ExportExcel.jsx:242 | reading the decimal text of n back gives n |
| Text.TwoDigits | src/components/dashboard/ReservationTable.jsx:26 | a `minute: "2-digit"` field is two digits that read back to the minute |
| Clock.Hour12 | src/components/dashboard/ReservationTable.jsx:27 | the 12-hour hour lies in 1..12 and agrees with the 24-hour hour modulo 12 (0 and 12 read 12) |
| Clock.To24 | src/components/dashboard/ReservationTable.jsx:24-27 | a 12-hour hour and a day period give the unique 24-hour hour with that 12-hour hour and period |
| Clock.TimeLabel | src/components/dashboard/ReservationTable.jsx:24-27 | the `hour: "numeric"` label is unpadded: it never starts with '0', and is 7 characters long exactly when the 12-hour hour has one digit, 8 otherwise |
| Clock.PaddedTimeLabel | src/components/History.jsx:209-212 | the two-digit-hour label is exactly 8 characters long |
| Clock.StampLabel | src/components/ExportExcel.jsx:22-31 | the `hour: "numeric"` label of a Date: the unpadded TimeLabel of a valid date, "Invalid Date" for the Invalid Date; at least 7 characters either way |
| Clock.PaddedStampLabel | src/components/History.jsx:209-221 | the `hour: "2-digit"` label of a Date: the padded label of a valid date, "Invalid Date" for the Invalid Date |
| Clock.TimeLabelReadsBack | src/components/dashboard/ReservationTable.jsx:24-32 | the unpadded 12-hour label reads back to the time's own hour and minute, whatever follows it |
| Clock.ReadRangeOf | src/components/dashboard/ReservationTable.jsx:24-32 | a first label followed by " - " and a final second label reads as the range of both times |
| Clock.RangeLabelReadsBack | src/components/dashboard/ReservationTable.jsx:22-32 | two unpadded labels joined by " - " read back to both times |
| Clock.PaddedTimeLabelReadsBack | src/components/History.jsx:207-221 | the padded label reads back to the time's own hour and minute, whatever follows it |
| Records.Shade | src/components/dashboard/ReservationTable.jsx:37 | the stripe of row `index`: "bg-white" on even rows, "bg-gray-50" on odd ones (characterised by ShadeStripes) |
| Records.ShadeStripes | src/components/History.jsx:200 | a row is "bg-white" exactly at even indices and "bg-gray-50" exactly at odd ones, so neighbouring rows always differ |
| Records.ParseDetails | src/components/History.jsx:196 | `JSON.parse(entry.eventDetails \|\| "{}")`: a missing or empty text gives the details with every field missing, any other text its parse |
| Records.OrElse | src/components/History.jsx:203 | `value \|\| fallback` is the value when it is present and non-empty, and the fallback otherwise |
| Uri.EncodeURIComponent | src/components/History.jsx:25 | the encoding holds only unreserved characters and '%', and leaves an all-unreserved text unchanged; a single unreserved character stands for itself, and any other single character becomes the %XX escapes of its UTF-8 bytes |
| Uri.EncodeAppend | src/components/History.jsx:25 | encoding works character by character: the encoding of `a + b` is the encoding of `a` followed by that of `b`, which with the one-character clauses fixes the encoding of every text |
| Uri.DecodeEncoded | src/components/History.jsx:25 | decoding the encoding of any text gives back that text |
| ReservationTable.IsAllDay | src/components/dashboard/ReservationTable.jsx:17-21 | `isAllDayReservation`: start 8:00 and end 23:00 by hours and minutes; it holds only of valid dates, since an Invalid Date's getters give NaN |
| ReservationTable.TimeDisplay | src/components/dashboard/ReservationTable.jsx:22-32 | an all-day reservation shows "All Day"; any other shows the unpadded labels of its start and end (each "Invalid Date" when it does not parse) joined by " - ", at least 17 characters |
| ReservationTable.AllDayExactly | src/components/dashboard/ReservationTable.jsx:17-23 | the Time column is "All Day" if and only if the start is 08:00 and the end is 23:00 |
| ReservationTable.AllDayLooksAtHoursAndMinutesOnly | src/components/dashboard/ReservationTable.jsx:17-21 | two reservations with the same start and end hours and minutes are classified alike; seconds and dates are not looked at |
| ReservationTable.TimeRangeReadsBack | src/components/dashboard/ReservationTable.jsx:22-32 | a reservation that is not all-day shows "start - end", which reads back to both of its hour and minute pairs |
| ReservationTable.Rows | src/components/dashboard/ReservationTable.jsx:13-14 | one row per reservation, or a single row when there are none; a row is the message row exactly when the list is empty |
| ReservationTable.RowsShowEachReservation | src/components/dashboard/ReservationTable.jsx:13-95 | one row per reservation, in input order; each row is keyed by its id, shows its owner, has the Time column `TimeDisplay` of its reservation (so "All Day" exactly when it is all-day) and the stripe `Shade` of its index; an empty list gives only the "No reservations for this day" row |
| History.FormatAction | src/components/History.jsx:40-51 | "create", "update" and "delete" become "Created", "Updated" and "Deleted"; any other action is returned unchanged |
| History.FormatActionIdempotent | src/components/History.jsx:40-51 | formatting an action twice gives the same as once |
| History.FormatActionChangesOnlyKnownActions | src/components/History.jsx:40-51 | an action is reworded if and only if it is one of the three known actions |
| History.HistoryUrl | src/components/History.jsx:25 | the URL is exactly "/history" if and only if the filter is "All"; any other filter gives "/history?building=" followed by `encodeURIComponent` of the filter |
| History.HistoryUrlNamesBuilding | src/components/History.jsx:25 | for a building filter, the query value is URL-safe and decodes back to the building's name |
| History.HistoryUrlOfSpacedName | src/components/History.jsx:25 | the filter "O N" is fetched from "/history?building=O%20N": the space is escaped and the letters are kept |
| History.LocaleDate | src/components/History.jsx:205 | `toLocaleDateString()`: the locale's rendering of a valid date, "Invalid Date" for the Invalid Date |
| History.WhenPresent | src/components/History.jsx:205-221 | `field ? … : "N/A"`: "N/A" for a missing or empty field, else the rendering of the parsed field |
| History.MissingDetailsShowNotAvailable | src/components/History.jsx:196-221 | an entry whose `eventDetails` is missing or empty, with its details parsed as `DetailsParsed` states, shows "N/A" in its building, date, start and end columns |
| History.EntryRowOf | src/components/History.jsx:196-227 | the row of one entry: its id, the action's wording and the stripe of its index; the building, or "N/A" when missing or empty; the locale date and the padded start label of the parsed start when present, "N/A" for both otherwise; the padded end label when present, else "N/A"; the key `<eventId>-<timestamp>`; the user's name when present, else empty |
| History.HistoryRows | src/components/History.jsx:194-235 | the single "No history available" row for an empty history, else one row per entry in order, the i-th built from entry i at index i |
| History.HistoryRowsShowEachEntry | src/components/History.jsx:194-234 | one row per entry, in input order, with its id, its action's wording and the stripe of its index; "N/A" where the building, the start or the end is missing or empty, else the building itself; the locale date of a present start; times that read back to the entry's start and end; an empty history gives only the "No history available" row |
| History.HistoryView.constructor | src/components/History.jsx:9-11 | the menu starts closed, the history empty and the filter "All" |
| History.HistoryView.Url | src/components/History.jsx:25 | the page fetches from `HistoryUrl` of its current filter, so "/history" exactly when the filter is "All" |
| History.HistoryView.ToggleMenu | src/components/History.jsx:36-38 | the menu flag is negated; nothing else changes |
| History.HistoryView.CloseMenu | src/components/History.jsx:125-128 | a menu item closes the menu; nothing else changes |
| History.HistoryView.ReceiveHistory | src/components/History.jsx:29 | the fetched entries replace the history; nothing else changes |
| History.HistoryView.SelectBuilding | src/components/History.jsx:157 | the filter becomes the selected building, and the next URL is that filter's URL; nothing else changes |
| History.ToggleTwice | src/components/History.jsx:36-38 | toggling the menu twice restores the page's state |
| Dashboard.Complete | src/components/Dashboard.jsx:39 | `newEvent.date && newEvent.start && newEvent.end`: every input holds a non-empty text, the only falsy string being "" |
| Dashboard.BuildEvent | src/components/Dashboard.jsx:39-47 | an event is built if and only if date, start and end are all non-empty; it carries the current building and the user's id and name |
| Dashboard.SplitJoined | src/components/Dashboard.jsx:42-43 | a date without 'T' joined to a time by "T" splits back into that date and time |
| Dashboard.BuiltEventRecoversForm | src/components/Dashboard.jsx:40-47 | a built event's start and end split back into the form's date and its start and end times; its title is "Reserva de " followed by the user's name |
| Dashboard.CreateRequest | src/components/Dashboard.jsx:50 | the create is a POST to "/reservations" carrying the built event unchanged |
| Dashboard.ReservationPath | src/components/Dashboard.jsx:29 | `/reservations/${segment}` splits back into the collection prefix with its slash and the segment itself |
| Dashboard.DropUpdate | src/components/Dashboard.jsx:162-166 | a calendar drag sends exactly the fields start and end, holding the new bounds |
| Dashboard.UpdatePayload | src/components/Dashboard.jsx:68-71 | the update body has the updated fields plus userName; userName is the current user's name and every other field is kept |
| Dashboard.DeleteBody | src/components/Dashboard.jsx:83-85 | the delete body holds only userName, the current user's name |
| Dashboard.UpdateRequest | src/components/Dashboard.jsx:65-71 | a PUT on the event's own path; its body has the updated fields plus userName, the current user's name, and keeps every other field |
| Dashboard.DeleteRequest | src/components/Dashboard.jsx:80-85 | a DELETE on the event's own path whose body holds only userName, the current user's name |
| Dashboard.DropRequest | src/components/Dashboard.jsx:162-166 | a calendar drag sends a PUT on the moved event's path holding exactly start, end and userName, with the new bounds and the user's name |
| Dashboard.ClickRequest | src/components/Dashboard.jsx:156-160 | a click sends a request if and only if the confirmation is answered yes, and that request is `handleDeleteEvent`'s DELETE on the event's path with the body `{ userName: user.name }` |
| Dashboard.EventsRequest | src/components/Dashboard.jsx:29 | the fetch is a GET of `/reservations/<building>` with no body |
| Dashboard.DashboardState.Fetch | src/components/Dashboard.jsx:26-35 | the page's fetch is `EventsRequest` of its current building: a GET on that building's path with no body |
| Dashboard.DashboardState.constructor | src/components/Dashboard.jsx:13-15 | the building starts as "Bloco A", the events empty and all three form fields empty |
| Dashboard.DashboardState.SelectBuilding | src/components/Dashboard.jsx:102 | the building becomes the selected one and the next fetch asks for that building's reservations; nothing else changes |
| Dashboard.DashboardState.ReceiveEvents | src/components/Dashboard.jsx:31 | the fetched events replace the events; nothing else changes |
| Dashboard.DashboardState.EditDate | src/components/Dashboard.jsx:129 | only the form's date changes |
| Dashboard.DashboardState.EditStart | src/components/Dashboard.jsx:135 | only the form's start time changes |
| Dashboard.DashboardState.EditEnd | src/components/Dashboard.jsx:141 | only the form's end time changes |
| Dashboard.DashboardState.AddEvent | src/components/Dashboard.jsx:38-63 | a create request is sent if and only if the form is complete, and carries the built event; the form is cleared only after a successful create; the alert is the missing-fields text, the success text with the new id, or the error text |
| Spreadsheet.ColumnLetter | src/components/ExportExcel.jsx:79 | `String.fromCharCode(65 + index)` is an upper-case letter for the 26 first columns |
| Spreadsheet.Address | src/components/ExportExcel.jsx:79 | the address is the column letter followed by the decimal row number |
| Spreadsheet.AddressParses | src/components/ExportExcel.jsx:79 | the address built from a column index and a row names the cell at that row and column index + 1 |
| Spreadsheet.Worksheet.constructor | src/components/ExportExcel.jsx:40 | a new sheet has the given name and no cells or merges |
| Spreadsheet.Worksheet.MergeCells | src/components/ExportExcel.jsx:62 | the parsed range is appended to the merges; the cells are unchanged |
| Spreadsheet.Worksheet.SetCellAt | src/components/ExportExcel.jsx:63-64 | exactly the addressed cell takes the value |
| Spreadsheet.Worksheet.SetCell | src/components/ExportExcel.jsx:95-99 | exactly cell (row, column) takes the value |
| Spreadsheet.Worksheet.SetRowValues | src/components/ExportExcel.jsx:190-198 | assigning a row's values removes its earlier cells and puts values[j] in column j + 1; other rows and the merges are unchanged |
| Spreadsheet.Workbook.constructor | src/components/ExportExcel.jsx:36 | `new ExcelJS.Workbook()` holds no sheets |
| Spreadsheet.Workbook.AddWorksheet | src/components/ExportExcel.jsx:40 | a fresh, empty sheet with the given name is appended to the workbook |
| ExportExcel.ReservationTime | src/components/ExportExcel.jsx:22-33 | `formatReservationTime`: the unpadded labels of start and end (each "Invalid Date" when it does not parse) joined by " - ", at least 17 characters; ReservationTimeReadsBack gives what it reads as |
| ExportExcel.ReservationTimeReadsBack | src/components/ExportExcel.jsx:22-33 | the export label "start - end" of a reservation with valid dates reads back to both of its hour and minute pairs |
| ExportExcel.CurrentYearReservations | src/components/ExportExcel.jsx:44-47 | a reservation is kept if and only if it is in the input and its start is a valid date in the current year |
| ExportExcel.CurrentYearAppend | src/components/ExportExcel.jsx:44-47 | filtering a concatenation is the concatenation of the filtered parts, so the input order is kept |
| ExportExcel.OtherYearsIgnored | src/components/ExportExcel.jsx:44-47 | a reservation from another year, wherever it stands in the input, leaves the grid exactly as it would be without it |
| ExportExcel.EmptyGrid | src/components/ExportExcel.jsx:43 | the grid starts as 31 rows of 12 empty strings |
| ExportExcel.Slot | src/components/ExportExcel.jsx:50-54 | a reservation has a cell if and only if its start is a valid date: a valid start always passes the 0 ≤ day < 31, 0 ≤ month < 12 guard, at cell (day of month - 1, month) |
| ExportExcel.Combine | src/components/ExportExcel.jsx:55-57 | an empty cell takes the label alone; a non-empty one keeps its text, then ", ", then the label |
| ExportExcel.Place | src/components/ExportExcel.jsx:49-58 | one reservation changes only its own cell: the label goes into an empty cell, and is added after ", " to a non-empty one; every other cell keeps its value |
| ExportExcel.Fill | src/components/ExportExcel.jsx:49-59 | the reservations placed one after the other keep the 31 × 12 shape of the grid |
| ExportExcel.FillLeavesOtherCells | src/components/ExportExcel.jsx:49-59 | a cell that none of the reservations lands in keeps its value |
| ExportExcel.LabelsAt | src/components/ExportExcel.jsx:53 | every label collected for a cell is non-empty |
| ExportExcel.JoinLabelsEmpty | src/components/ExportExcel.jsx:55-57 | the labels joined by ", " are empty exactly when there are no labels |
| ExportExcel.FilledCell | src/components/ExportExcel.jsx:49-59 | each cell of the filled grid is the labels of exactly the reservations starting on that day and month, in input order, joined by ", " |
| ExportExcel.PlaceReservation | src/components/ExportExcel.jsx:49-58 | one iteration of the `forEach` leaves the array equal, cell by cell, to the specification grid with that reservation placed |
| ExportExcel.BuildGrid | src/components/ExportExcel.jsx:43-59 | the array built and filled in place equals, cell by cell, the specification grid of the current year's reservations |
| ExportExcel.TitlesSpanHeaders | src/components/ExportExcel.jsx:62-64 | "A1:M1" spans row 1 over exactly the 13 building headers; "A1:F1" does the same over the 6 history headers; "A1" is cell (1, 1) |
| ExportExcel.WriteHeaders | src/components/ExportExcel.jsx:77-90 | header i goes to row 2, column i + 1; nothing outside row 2 changes |
| ExportExcel.WriteTitle | src/components/ExportExcel.jsx:62-90 | the title range is the only merge; the sheet holds exactly the title in A1 and header i in row 2, column i + 1 |
| ExportExcel.WriteGridRow | src/components/ExportExcel.jsx:95-108 | grid row r goes to sheet row r + 3: day number r + 1 in column 1 and the grid's month c in column c + 2; no other cell is added or changed |
| ExportExcel.WriteGrid | src/components/ExportExcel.jsx:94-109 | the 31 grid rows go to sheet rows 3 to 33, day number first and the twelve months after it; the cells already there keep their values and the merges are unchanged |
| ExportExcel.CreateBuildingSheet | src/components/ExportExcel.jsx:39-139 | a fresh sheet is appended, with the title merged over A1:M1; the sheet holds exactly the title, the 13 headers on row 2 and the 31 grid rows of the current year's reservations |
| ExportExcel.HistoryDate | src/components/ExportExcel.jsx:181 | `details.start \|\| entry.timestamp`: the details' start when present and non-empty, else the timestamp |
| ExportExcel.CurrentYearHistory | src/components/ExportExcel.jsx:178-183 | an entry is kept if and only if it is in the history and its details' start, or else its timestamp, is a valid date in the current year |
| ExportExcel.CurrentYearHistoryAppend | src/components/ExportExcel.jsx:178-184 | filtering a concatenation is the concatenation of the filtered parts, so the kept entries keep the history's order and repeats |
| ExportExcel.HistoryRowValues | src/components/ExportExcel.jsx:184-198 | the six values: the formatted action; owner, building and scheduler, each "N/A" when missing or empty; the formatted date of a valid date, else "N/A"; the time display |
| ExportExcel.KeptEntriesHaveDates | src/components/ExportExcel.jsx:184-189 | an entry kept by the year filter always shows its formatted date, never "N/A" |
| ExportExcel.HistoryTable | src/components/ExportExcel.jsx:184-198 | the k-th row of values belongs to the k-th kept entry |
| ExportExcel.WriteRows | src/components/ExportExcel.jsx:190-198 | row values k go to sheet row k + 3, value j in column j + 1; the cells already there keep their values and no other cell is added |
| ExportExcel.WriteHistoryRows | src/components/ExportExcel.jsx:178-198 | below the title and headers, the k-th kept entry's six values go to row k + 3, and the sheet holds nothing else |
| ExportExcel.CreateHistorySheet | src/components/ExportExcel.jsx:142-232 | a fresh sheet "Reservation History" is appended, with the title merged over A1:F1; the sheet holds exactly the title, the 6 headers and the k-th kept entry's values on row k + 3 |
| ExportExcel.AddBuildingSheets | src/components/ExportExcel.jsx:235-236 | the "One Three North" and "Two Three North" sheets are appended in that order, each laid out from its own reservations with its title merged over its headers |
| ExportExcel.OrEmpty | src/components/ExportExcel.jsx:17-19 | `res.data \|\| []`: the fetched list, or the empty list when there is none |
| ExportExcel.HandleExport | src/components/ExportExcel.jsx:6-242 | the workbook holds the two building sheets and the history sheet, in that order, each laid out from its fetched data (missing data counts as empty) with its title merged over its header columns; the file name is "Vesta_" followed by the year and ".xlsx" |

## Left out

- The network: every axios call. Fetched data are inputs (`res.data` as an Option, absent for a falsy value). A request is a value the model returns, not something sent. `AuthContext` (the user, logout) is a parameter.
- Failed requests: the `catch` branches alert the error text. `AddEvent` models this for the create request. For the fetches, the update and the delete, a failure leaves state unchanged, and that is not modelled separately.
- The re-fetches after a create, update or delete, and the `useEffect` scheduling: these are in React's event loop.
- Styling of the workbook: fonts, fills, borders, alignment, row heights and column widths. Also left out: `writeBuffer`, `Blob`, `saveAs`, `onSuccess` and `onError` (foreign library calls and file output), and `console.log`.
- `JSON.parse` of `eventDetails`: details are a pre-parsed record with optional fields. Malformed JSON, which throws and ends the export in `onError`, is not modelled.
- JavaScript `Date` parsing, time zones and `getFullYear`: these are a `parse` parameter or pre-parsed `Stamp` fields. `toLocaleDateString` is an opaque function of the moment.
- `toLocaleTimeString` in the default locale on the dashboard and history pages: it is modelled as en-US.
- The separator before AM/PM: it is modelled as a plain space; recent ICU versions emit U+202F there.
- `formatDate` and `formatTimeDisplay`, the callbacks the export receives: their code is not part of this model, so they are opaque function parameters.
- The fully-booked rule and the slot validation: they reach the dashboard only as props of `ReservationHeader` and `ReservationModal`, whose source is not part of this model.
- Routing and pure UI: navigation, the calendar widget, the delete confirmation dialog, and the other components (Navbar, MobileMenu, Login, App, ReservationCalendar, ReservationModal, ReservationHeader, BuildingSelection, ProtectedRoute).
- ExportExcel.WriteRows: requires that no cell lies on row 3 or below, as on the freshly titled sheet it is called on; the general case of overwriting rows is not stated.
- ExportExcel.WriteGrid: requires the same of the sheet (only rows 1 and 2 written), which is how the export calls it; ExportExcel.WriteGridRow likewise requires that nothing lies on its row or below.
- Uri.DecodeURIComponent: accepts overlong UTF-8 escapes ("%C1%81" reads as "A"), on which JavaScript's `decodeURIComponent` throws; it serves only as the inverse of the encoder, whose output never holds them.
- Spreadsheet.ParseAddress: reads only single-letter columns, the only ones the export writes (at most 13 headers). An invalid address, on which the library throws, is a precondition.
