# MarkTech Nepal receipts: a Dafny model of the core

The system is a small repair-shop application. It creates repair receipts,
lists and searches them, prints them, exports and imports them as CSV, and
shows received dates in the Bikram Sambat (BS) calendar. This project models
the parts of it that compute something. The database, the user interface and
the browser become parameters or are left out. Every model is proved against
its own specification.

- **BS calendar** (`nepali_date.dfy`, module `NepaliCalendar`):
  - the month-length table for BS 2070 to 2090;
  - the anchor BS 2081/01/01 = 13 April 2024;
  - the converter, as a method with the source's two `while` loops, proved equal to a recursive walk;
  - what the walk means: inside the table the result is the one valid date exactly that many days from the anchor;
  - `YYYY/MM/DD B.S.` rendering, proved invertible.

  Calendar days are integers (days since 1970-01-01). `getDaysDifference` is then a subtraction.
- **CSV codec** (`export_csv.dfy`, `import_csv.dfy`): the quoting rules of section 2 of RFC 4180 (rules 5 to 7).
  - Export: `escapeValue`, the 18-column rows and the file content.
  - Import: the character loop of `parseCSVLine`, proved equal to a recursive tokenizer; the row loop of `parseCSV`; and the import loop with its success/failure accounting.
  - Round trips are proved per line, per file (when no value holds a line feed) and from export to parse.
- **Customer suggestions** (`customer_suggestions.dfy`): the length guard and the order-preserving de-duplication.
- **Receipt hooks** (`receipt_queries.dfy`):
  - classifying a search string as a receipt number or as text;
  - the grouped listing and the status tally;
  - the status-update record and the insert record of a new receipt.
- **New-receipt form** (`receipt_form.dfy`): the component state as a class with one method per handler, the inline setters of the customer name, the phone and the received date included. This covers:
  - the device list (add, remove while keeping at least one, update one field);
  - the suggestion popup and the password toggles;
  - the submit loop, with the create mutation as an oracle.
- **Print slip** (`print_receipt.dfy`): the receipt-number range, the customer fields and the padding-row count.
- **Repair note editor** (`repair_note_editor.dfy`): the status gate for viewing, the admin gate for editing, and the save handler.
- Shared modules:
  - `optional.dfy` holds `Option`, for JavaScript's `null`, and the two `||` conversions between nullable and plain text;
  - `text.dfy` holds the JavaScript string built-ins the code uses (`String(n)`, `trim`, `split`, `join`, `toLowerCase`, `includes`);
  - `receipt_types.dfy` holds the receipt record and its status enum.

## Model

| member | source | states |
|---|---|---|
| Optional.OrNull | src/utils/importCsv.ts:112-119 | `s \|\| null`: null iff the text is empty, the text otherwise (the form's optional fields map the same way) |
| Optional.OrEmpty | src/utils/exportCsv.ts:33-40 | `x \|\| ''`: the value when set, `''` when null (the print slip's model, serial and PW fields use it too) |
| Optional.NullRoundTrip | src/utils/exportCsv.ts:33-40 | text survives null-then-text, and a nullable value other than `''` survives text-then-null |
| NepaliCalendar.TableShape | src/utils/nepaliDate.ts:5-27 | the table has a row for exactly the years 2070 to 2090, each 12 month lengths between 29 and 32 |
| NepaliCalendar.DaysInMonth | src/utils/nepaliDate.ts:68 | a tabulated month has 29 to 32 days |
| NepaliCalendar.DaysDifference | src/utils/nepaliDate.ts:35-40 | the difference of two calendar days: zero iff the days are equal, positive iff the first is later, and adding it to the second gives the first |
| NepaliCalendar.WalkForward | src/utils/nepaliDate.ts:63-78 | the forward walk ends with a month in 1..12, a day of at least 1 and a year no earlier than where it started |
| NepaliCalendar.WalkBackward | src/utils/nepaliDate.ts:79-98 | the backward walk keeps the month in 1..12 and the day at least 1, and never goes below BS 2069 |
| NepaliCalendar.Convert | src/utils/nepaliDate.ts:56-99 | every day difference converts to a month in 1..12, a day of at least 1 and a year of at least 2069 |
| NepaliCalendar.ConvertToNepaliDate | src/utils/nepaliDate.ts:56-106 | the two loops compute Convert. Inside the table the result is a valid date exactly `daysDiff` days from the anchor. Past the table's end it is BS 2091/01 with the leftover days. Before its start it is BS 2069/12 with the day the walk last held |
| NepaliCalendar.WalkForwardCorrect | src/utils/nepaliDate.ts:63-78 | the forward walk preserves the count: the result lies exactly as many days from the anchor as the start day plus the days to go. It is in the table iff that target is before the table's end, and valid there; otherwise it is BS 2091/01 |
| NepaliCalendar.WalkBackwardCorrect | src/utils/nepaliDate.ts:79-98 | the backward walk ends in the table iff the target is not before BS 2070/01/01. There it is the valid date exactly the given number of days earlier; otherwise it is BS 2069/12 with the first month's length as the day |
| NepaliCalendar.BackwardStep | src/utils/nepaliDate.ts:87-96 | one `else` step moves to the last day of the previous month, a valid date, and keeps the target day unchanged |
| NepaliCalendar.BackwardWithinMonth | src/utils/nepaliDate.ts:84-86 | fewer days to go than the day of the month: the walk stops in that month on the valid date that many days earlier |
| NepaliCalendar.BackwardLeavesTable | src/utils/nepaliDate.ts:88-96 | stepping back out of BS 2070/01 leaves the table at BS 2069/12 with the day it held, and the target lies before the table |
| NepaliCalendar.ConvertCorrect | src/utils/nepaliDate.ts:56-99 | for every day difference: the valid date at exactly that offset inside the table; BS 2091/01 with the leftover days past it; BS 2069/12 before it |
| NepaliCalendar.OffsetOrder | src/utils/nepaliDate.ts:5-27 | a later valid date in calendar order lies strictly more days from the anchor |
| NepaliCalendar.OffsetInjective | src/utils/nepaliDate.ts:5-27 | two valid dates at the same day offset are the same date |
| NepaliCalendar.ConvertMonotone | src/utils/nepaliDate.ts:56-99 | inside the table, a later Gregorian day converts to a strictly later BS date |
| NepaliCalendar.RollOver | src/utils/nepaliDate.ts:69-77 | N days after the first day of an N-day month is the first day of the next month, across a year end too |
| NepaliCalendar.AnchorNeighbours | src/utils/nepaliDate.ts:29-33 | a difference of 0 gives BS 2081/01/01, +1 gives 2081/01/02 and −1 gives 2080/12/30, the last entry of 2080 |
| NepaliCalendar.YearSpan | src/utils/nepaliDate.ts:43-46 | the sum of a tabulated year's month lengths is the distance from its first day to the next year's first day |
| NepaliCalendar.YearLength | src/utils/nepaliDate.ts:43-48 | `getTotalDaysInYear` is a tabulated year's length in days, and 365 for any other year |
| NepaliCalendar.Pad2 | src/utils/nepaliDate.ts:114-115 | `padStart(2, '0')` gives digits denoting the number: two of them below 100, the plain decimal from 100 up |
| NepaliCalendar.FormatNepaliDate | src/utils/nepaliDate.ts:108-118 | the formatted text reads back as the converted date |
| NepaliCalendar.RenderRoundTrip | src/utils/nepaliDate.ts:112-117 | `Y/MM/DD B.S.` determines the date: reading it back gives the date |
| NepaliCalendar.Render | src/utils/nepaliDate.ts:112-117 | the text ends in ` B.S.` |
| NepaliCalendar.ParseRendered | src/utils/nepaliDate.ts:112-117 | only text ending in ` B.S.` reads as a date, and what it reads has no negative part, so Render applies to it |
| NepaliCalendar.RenderExample | src/utils/nepaliDate.ts:117 | BS 2081/01/05 renders as `2081/01/05 B.S.` |
| Text.DecimalOfNatToString | src/hooks/useReceipts.ts:17 | base-10 `parseInt` reads `String(n)` back as n |
| Text.DecimalLeadingZero | src/hooks/useReceipts.ts:17 | a leading zero does not change the value `parseInt` reads |
| Text.TrimStartRemovesLeading | src/utils/importCsv.ts:40 | the left half of `trim` removes exactly the leading whitespace |
| Text.TrimEndRemovesTrailing | src/utils/importCsv.ts:40 | the right half of `trim` removes exactly the trailing whitespace |
| Text.BlankIffAllWhitespace | src/utils/importCsv.ts:23 | `!line.trim()` holds iff every character is whitespace |
| Text.SplitJoin | src/utils/importCsv.ts:23 | `split` undoes `join` when no part holds the separator |
| Text.JoinWithAvoids | src/utils/exportCsv.ts:62 | a character absent from every part, other than the separator, is absent from the joined text |
| Text.Before | src/hooks/useReceipts.ts:143 | `s.split(c)[0]` is a prefix of `s` without `c`, ending at the first `c` |
| ReceiptTypes.StatusNameRoundTrip | src/types/receipt.ts:1 | the five status names are distinct, and each reads back as its status |
| ExportCsv.DoubleQuotes | src/utils/exportCsv.ts:53 | a value without `"` is unchanged; no result is shorter than its input |
| ExportCsv.DoubleQuotesKeepsChars | src/utils/exportCsv.ts:53 | doubling quotes keeps exactly the other characters |
| ExportCsv.EscapeValue | src/utils/exportCsv.ts:50-56 | a value without comma, quote or line feed is unchanged. Any other value is wrapped in quotes with every quote doubled |
| ExportCsv.EscapeKeepsLineFeeds | src/utils/exportCsv.ts:50-56 | the escaped value holds a line feed iff the value does |
| ExportCsv.CsvLineNoLineFeed | src/utils/exportCsv.ts:61-62 | a line built from values without line feeds holds none |
| ExportCsv.CsvLineHasComma | src/utils/exportCsv.ts:61 | a line of two or more values holds a comma |
| ExportCsv.CsvLine | src/utils/exportCsv.ts:61-62 | `map(escapeValue).join(',')`: values that need no quoting are joined as they are (what quoting does is stated by EscapeValue, and the line is read back by ImportCsv.LineRoundTrip) |
| ExportCsv.HeadersOneLine | src/utils/exportCsv.ts:6-25 | there are 18 headers, none holding a line feed |
| ExportCsv.HeadersTrimmed | src/utils/exportCsv.ts:6-25 | no header has surrounding whitespace |
| ExportCsv.HeadersDistinct | src/utils/exportCsv.ts:6-25 | the header names are distinct |
| ExportCsv.DateCell | src/utils/exportCsv.ts:42-43 | a null or empty optional date exports as `''`; any other date exports as its `yyyy-MM-dd` form |
| ExportCsv.Row | src/utils/exportCsv.ts:28-47 | a row has as many values as the header. Its S.N. is the index plus 1 and its second value is the receipt number |
| ExportCsv.HeaderNames | src/utils/exportCsv.ts:6-25 | the 18 header names, column by column |
| ExportCsv.CustomerColumns | src/utils/exportCsv.ts:31-33 | columns 2 to 4 of a row hold the customer name, phone and email (`''` when null), as headers 2 to 4 name them |
| ExportCsv.DeviceColumns | src/utils/exportCsv.ts:34-38 | columns 5 to 9 hold the device type, model, serial number and accessories (`''` when null) and the problem, as headers 5 to 9 name them |
| ExportCsv.RepairColumns | src/utils/exportCsv.ts:39-46 | columns 10 to 17 hold the repair notes, the password, the three dates, the status name and the two timestamps, as headers 10 to 17 name them |
| ExportCsv.DeviceNullsExportEmpty | src/utils/exportCsv.ts:33-37 | null email, model, serial and accessories export as `''` |
| ExportCsv.RepairNullsExportEmpty | src/utils/exportCsv.ts:39-43 | null notes, password, estimated and actual delivery export as `''` |
| ExportCsv.Rows | src/utils/exportCsv.ts:28 | one row per receipt, in input order, row i numbered i + 1 |
| ExportCsv.RowLines | src/utils/exportCsv.ts:62 | one CSV line per row, line i being row i escaped and joined by commas |
| ExportCsv.CsvContent | src/utils/exportCsv.ts:59-62 | the file starts with the byte-order mark; ImportCsv.ExportThenParse states that it parses back to the exported rows |
| ImportCsv.Fields | src/utils/importCsv.ts:49-74 | the recursive tokenizer always yields at least one field |
| ImportCsv.ParseCsvLine | src/utils/importCsv.ts:49-74 | the character loop, including its `i++` skip over `""`, yields exactly the tokenizer's fields |
| ImportCsv.FieldCount | src/utils/importCsv.ts:49-74 | one more field than commas outside quotes |
| ImportCsv.RunKept | src/utils/importCsv.ts:67-68 | characters other than `"` (and, outside quotes, `,`) are appended to the current field |
| ImportCsv.PlainLine | src/utils/importCsv.ts:49-74 | a line with no `"` and no `,` is a single field equal to the line |
| ImportCsv.QuotedComma | src/utils/importCsv.ts:64-69 | a comma inside quotes stays in the field |
| ImportCsv.DoubledStep | src/utils/importCsv.ts:58-60 | inside quotes, `""` emits one `"` and consumes both characters |
| ImportCsv.LoneQuotesNotEmitted | src/utils/importCsv.ts:57-63 | in a line without `""`, no field holds a `"`: a lone quote only toggles the state |
| ImportCsv.ReadDoubled | src/utils/importCsv.ts:57-63 | the body of a quoted value followed by its closing quote reads back as the value |
| ImportCsv.ReadEscaped | src/utils/importCsv.ts:49-74 | an escaped value followed by a comma or the end of the line reads back as the value |
| ImportCsv.LineRoundTrip | src/utils/importCsv.ts:49-74 | parsing the escaped values joined by commas gives back the values, for any non-empty list |
| ImportCsv.NonBlank | src/utils/importCsv.ts:23 | every kept line is non-blank, and every non-blank line of the input is kept |
| ImportCsv.NonBlankAppend | src/utils/importCsv.ts:23 | filtering distributes over concatenation, so the non-blank lines keep their input order |
| ImportCsv.NonBlankOne | src/utils/importCsv.ts:23 | a single line is kept iff it is not blank |
| ImportCsv.NonBlankKeepsAll | src/utils/importCsv.ts:23 | lines that are not blank are all kept, in order |
| ImportCsv.StripBom | src/utils/importCsv.ts:27-30 | a leading U+FEFF is removed; a line that does not start with one is unchanged |
| ImportCsv.TrimmedHeaders | src/utils/importCsv.ts:39-40 | one name per header, name i being header i trimmed |
| ImportCsv.RowMap | src/utils/importCsv.ts:39-41 | the last header's trimmed name maps to its trimmed value, or `''` |
| ImportCsv.RowMapKeys | src/utils/importCsv.ts:39-41 | a row's keys are exactly the trimmed header names |
| ImportCsv.RowMapLookup | src/utils/importCsv.ts:40 | with distinct trimmed names, each header maps to its column's trimmed value, or `''` when the value is missing |
| ImportCsv.RowsOf | src/utils/importCsv.ts:35-44 | one row per data line |
| ImportCsv.RowsOfAt | src/utils/importCsv.ts:35-44 | row i is the header map of line i's fields |
| ImportCsv.ParseCsvSpec | src/utils/importCsv.ts:22-47 | no rows below two non-blank lines, otherwise one row per non-blank line after the header (their contents: ParseCsvRows) |
| ImportCsv.ParseCsvRows | src/utils/importCsv.ts:22-47 | fewer than two non-blank lines give no rows. Otherwise there is one row per further line, keyed by the BOM-stripped header line |
| ImportCsv.FillRow | src/utils/importCsv.ts:37-41 | the `forEach` builds the row map |
| ImportCsv.ParseCsv | src/utils/importCsv.ts:22-47 | the line loop computes the rows ParseCsvRows describes |
| ImportCsv.ReadRows | src/utils/importCsv.ts:35-44 | the loop over the data lines builds exactly the rows RowsOf describes, one per line, in order |
| ImportCsv.HeaderLineReads | src/utils/importCsv.ts:27-32 | the BOM-prefixed header line is one non-blank line that parses back to the headers |
| ImportCsv.RowLinesRead | src/utils/importCsv.ts:35-36 | every row line is one non-blank line |
| ImportCsv.FileLines | src/utils/importCsv.ts:23 | splitting a well-formed file gives back its header line and row lines |
| ImportCsv.FileParsesToRows | src/utils/importCsv.ts:22-47 | a well-formed file parses to the header maps of its row lines |
| ImportCsv.FileCell | src/utils/importCsv.ts:40 | each value of a parsed file row is the trimmed value that was written |
| ImportCsv.FileRoundTrip | src/utils/importCsv.ts:22-47 | a file of values without line feeds reads back, every header to its trimmed value |
| ImportCsv.DigitsTrimmed | src/utils/importCsv.ts:40 | a decimal number is unchanged by the trim applied to each read value |
| ImportCsv.StatusTrimmed | src/utils/importCsv.ts:40 | a status name is unchanged by the trim applied to each read value |
| ImportCsv.ReadBackNamesFields | src/utils/importCsv.ts:39-41 | a row object that reads back an exported row holds, under each header name, the trimmed value of the receipt field that header names |
| ImportCsv.ExportedFieldsReadBack | src/utils/exportCsv.ts:6-47 | in the parsed backup, row i holds, by header name, receipt i's fields: `S.N.` is i + 1, `Receipt #` the receipt number, `Status` the status name, and every other header the trimmed field it names |
| ImportCsv.ExportThenParse | src/utils/importCsv.ts:22-47 | the exported backup parses back to one row per receipt, each header mapping to the trimmed exported value |
| ImportCsv.ParseDate | src/utils/importCsv.ts:76-90 | a blank string gives null. Otherwise the string itself is returned iff the date parser accepts it |
| ImportCsv.ToInsert | src/utils/importCsv.ts:109-124 | the four required fields are the row's values, all non-empty. The status is the row's, or `received` when it has none. The received date is the row's when the date parser accepts it, and today otherwise |
| ImportCsv.Step | src/utils/importCsv.ts:100-139 | one pass counts its row exactly once with one message per failure. A row missing a required field is a failure with the missing-fields message and no insert. A valid row hands over its record (dated with that pass's clock reading) and is a success iff its insert reports no error |
| ImportCsv.ImportAccounting | src/utils/importCsv.ts:96-142 | success + failed is the number of rows, and the number of errors equals failed. success is the number of valid rows whose insert reported no error, so every row missing a required field is counted as failed. The records handed to the insert are those of the valid rows, in order |
| ImportCsv.ImportSpec | src/utils/importCsv.ts:96-142 | after k rows, success + failed is k and there is one error per failure |
| ImportCsv.ImportOutcomes | src/utils/importCsv.ts:100-139 | success equals the number of valid rows whose insert returned no error, failed is every other row, and the failures include every row missing a required field |
| ImportCsv.ImportInserts | src/utils/importCsv.ts:103-124 | the records handed to the insert are those of the valid rows, in order |
| ImportCsv.InsertsAreValid | src/utils/importCsv.ts:103-107 | no record missing a required field is ever inserted, and every record has a status |
| ImportCsv.ImportRow | src/utils/importCsv.ts:100-139 | the loop body performs one step of the accounting specification |
| ImportCsv.ImportReceipts | src/utils/importCsv.ts:92-143 | the loop's totals are the specification's: every row counted once, one error per failure, success exactly the rows whose insert reported no error, every invalid row failed, only valid rows inserted, each row read with its own clock reading |
| CustomerSuggestions.FirstIndex | src/hooks/useCustomerSuggestions.ts:25-27 | the first position holding the entry |
| CustomerSuggestions.Dedup | src/hooks/useCustomerSuggestions.ts:24-35 | the `reduce` never lengthens the list; DedupCorrect states the rest |
| CustomerSuggestions.DedupCorrect | src/hooks/useCustomerSuggestions.ts:24-35 | no two entries share name and phone. Every input pair appears. Nothing new appears, the result is no longer than the input, and first occurrences keep input order |
| CustomerSuggestions.DedupMembers | src/hooks/useCustomerSuggestions.ts:24-35 | no duplicates and the same members as the input |
| CustomerSuggestions.DedupOrder | src/hooks/useCustomerSuggestions.ts:24-35 | the kept entries are in the order of their first occurrences |
| CustomerSuggestions.Find | src/hooks/useCustomerSuggestions.ts:25-27 | the `find` scan reports whether the pair is already kept |
| CustomerSuggestions.Unique | src/hooks/useCustomerSuggestions.ts:24-35 | the `reduce` with `push` computes Dedup |
| CustomerSuggestions.Suggestions | src/hooks/useCustomerSuggestions.ts:13-39 | a term shorter than 2 gives []. Otherwise the result is the de-duplicated first (at most 10) matches: at most 10 entries, no duplicates, all from the matches |
| ReceiptQueries.Classify | src/hooks/useReceipts.ts:15-26 | no filter iff the search is absent or empty. A receipt-number filter iff it is all digits, with its decimal value. Otherwise a phone/name substring filter on the search text |
| ReceiptQueries.ReceiptsQuery | src/hooks/useReceipts.ts:10-26 | the reassigned query is ordered by receipt number, descending, with the filter Classify gives |
| ReceiptQueries.LeadingZerosSameFilter | src/hooks/useReceipts.ts:16-22 | leading zeros select the same receipt: "0001" and "1" give the same filter |
| ReceiptQueries.SearchFindsOwnNumber | src/hooks/useReceipts.ts:20-22 | searching for a receipt's own number, with any leading zeros, matches that receipt |
| ReceiptQueries.GroupedQuery | src/hooks/useReceipts.ts:58-63 | no query iff there is no group id. Otherwise the query is by that group, ascending |
| ReceiptQueries.Count | src/hooks/useReceipts.ts:179-182 | the count is the status's multiplicity in the rows, so never more than the rows |
| ReceiptQueries.Tally | src/hooks/useReceipts.ts:177-183 | the total is the number of rows; each of the four counts is the number of rows with that status |
| ReceiptQueries.CountsPartition | src/hooks/useReceipts.ts:177-183 | the five status counts add up to the number of rows |
| ReceiptQueries.TallyBound | src/hooks/useReceipts.ts:177-183 | the four tallied counts plus the cancelled rows equal the total |
| ReceiptQueries.BuildStatusUpdate | src/hooks/useReceipts.ts:141-144 | the update carries the new status. A delivery adds the date part of now, any other status nothing |
| ReceiptQueries.Normalize | src/hooks/useReceipts.ts:80-87 | `x \|\| null`: absent iff absent or empty, the value otherwise |
| ReceiptQueries.CreateInsert | src/hooks/useReceipts.ts:76-88 | the required fields are copied. Empty optional fields become null. A missing or empty received date becomes now |
| ReceiptFormState.Get | src/components/ReceiptForm.tsx:41-51 | the two checkbox fields hold flags, the others text |
| ReceiptFormState.EmptyDevice | src/components/ReceiptForm.tsx:53-63 | the new device has the given id, every text field `''` and both check boxes off |
| ReceiptFormState.WithField | src/components/ReceiptForm.tsx:121 | the named field takes the value; the id and every other field stay |
| ReceiptFormState.UpdateWhere | src/components/ReceiptForm.tsx:119-123 | same length and ids. Devices with another id are unchanged, and those with the id take the value |
| ReceiptFormState.RemoveId | src/components/ReceiptForm.tsx:149 | filtering never lengthens the list |
| ReceiptFormState.RemoveIdMembers | src/components/ReceiptForm.tsx:149 | the devices left are exactly those with another id |
| ReceiptFormState.RemoveIdAt | src/components/ReceiptForm.tsx:149 | with distinct ids, removing the id at k leaves the others, in order |
| ReceiptFormState.RemoveAbsent | src/components/ReceiptForm.tsx:149 | removing an id no device has changes nothing |
| ReceiptFormState.DropKeepsDistinct | src/components/ReceiptForm.tsx:149 | dropping one device keeps the ids distinct |
| ReceiptFormState.RemoveKeepsOne | src/components/ReceiptForm.tsx:147-151 | from two or more devices: at least one is left, ids stay distinct and fresh, and exactly the device with that id goes |
| ReceiptFormState.FilterNames | src/components/ReceiptForm.tsx:128-130 | the suggestions are exactly the listed names containing the input, case-insensitively |
| ReceiptFormState.FilterNamesAppend | src/components/ReceiptForm.tsx:128-130 | filtering distributes over concatenation, so the suggestions keep the list's order |
| ReceiptFormState.FilterKeepsAllMatching | src/components/ReceiptForm.tsx:128-130 | when every listed name matches the input, the filter returns the list unchanged, in its order |
| ReceiptFormState.SubmitData | src/components/ReceiptForm.tsx:164-174 | model and serial become null when empty. Accessories (and the password) are non-null iff the box is ticked and the text is non-empty. The received date is the picked one or now |
| ReceiptFormState.Payloads | src/components/ReceiptForm.tsx:162-174 | one payload per device, in list order, the i-th dated (when no date is picked) with the clock reading of the i-th iteration |
| ReceiptFormState.SubmittedFieldsStored | src/components/ReceiptForm.tsx:164-174 | the create mutation stores the form's accessories, password, model and serial mapping, the picked date, and no group |
| ReceiptFormState.SubmitAll | src/components/ReceiptForm.tsx:161-188 | one create call per device, in order. Every call before the last succeeded. A throw stops the loop. The id comes back iff every device was created, and it is the last receipt's |
| ReceiptFormState.ReceiptForm.constructor | src/components/ReceiptForm.tsx:67-74 | an empty customer, the date now, one empty device and empty maps |
| ReceiptFormState.ReceiptForm.SelectCustomer | src/components/ReceiptForm.tsx:114-117 | sets the name and phone; nothing else changes |
| ReceiptFormState.ReceiptForm.SetCustomerName | src/components/ReceiptForm.tsx:216 | the name input sets the customer name; nothing else changes |
| ReceiptFormState.ReceiptForm.SetCustomerPhone | src/components/ReceiptForm.tsx:227 | the phone input sets the phone; nothing else changes |
| ReceiptFormState.ReceiptForm.SetReceivedDate | src/components/ReceiptForm.tsx:265 | the picker sets the received date, `None` when it is cleared; nothing else changes |
| ReceiptFormState.ReceiptForm.AddDevice | src/components/ReceiptForm.tsx:143-145 | appends exactly one empty device with a fresh id; nothing else changes |
| ReceiptFormState.ReceiptForm.RemoveDevice | src/components/ReceiptForm.tsx:147-151 | nothing happens to the last device. Otherwise only the device with that id goes and the rest keep their order. The list is never empty |
| ReceiptFormState.ReceiptForm.UpdateDevice | src/components/ReceiptForm.tsx:119-123 | only the named field of the device with that id changes |
| ReceiptFormState.ReceiptForm.HandleDeviceNameChange | src/components/ReceiptForm.tsx:125-136 | the name takes the input. A non-empty input stores the matching names. The popup is open iff the input is non-empty and some name matches |
| ReceiptFormState.ReceiptForm.SelectDeviceSuggestion | src/components/ReceiptForm.tsx:138-141 | the device takes the name and its popup closes |
| ReceiptFormState.ReceiptForm.TogglePasswordVisibility | src/components/ReceiptForm.tsx:153-155 | flips only that device's flag |
| ReceiptFormState.ReceiptForm.SetPasswordShown | src/components/ReceiptForm.tsx:435-438 | the "Show" box sets that device's flag to the box's state, not a toggle; nothing else changes |
| ReceiptFormState.ReceiptForm.Reset | src/components/ReceiptForm.tsx:178-183 | a blank customer, the date now, a single fresh empty device, no shown passwords |
| ReceiptFormState.ReceiptForm.HandleSubmit | src/components/ReceiptForm.tsx:157-192 | the create calls of SubmitAll, one clock reading per device. The form resets, dated with the reading after the last device, iff the last device was created, and is untouched otherwise. `isSubmitting` ends false |
| PrintReceipt.PaddingRows | src/components/PrintReceipt.tsx:112 | below 5 receipts exactly max(5 − n, 3) blank rows (at least 3 and at least 5 − n, and one of the two); none from 5 up |
| PrintReceipt.TableHeight | src/components/PrintReceipt.tsx:111-112 | the table has at least 5 rows for every n ≥ 1, at most 7 below 5 receipts, and exactly n from 5 up |
| PrintReceipt.Render | src/components/PrintReceipt.tsx:9-20 | nothing for no receipts. Otherwise: the header number is NumberDisplay's; the customer and PW come from the first receipt; row i is Row of receipt i, numbered i + 1; the padding is PaddingRows of the count, so the table is at least 5 rows high |
| PrintReceipt.Row | src/components/PrintReceipt.tsx:91-107 | row i is numbered i + 1 and shows the device type and problem. Accessories are shown iff set and non-empty. Model and serial show their value, or `''` when null |
| PrintReceipt.NumberDisplay | src/components/PrintReceipt.tsx:15-17 | a `-` appears iff there is more than one receipt; one receipt shows only digits |
| PrintReceipt.SingleNumber | src/components/PrintReceipt.tsx:15-17 | one receipt shows its own number |
| PrintReceipt.RangeReadsBack | src/components/PrintReceipt.tsx:15-17 | several receipts show `last-first`, which splits back into the two numbers |
| RepairNotes.ViewableStatuses | src/components/RepairNoteEditor.tsx:31 | notes are viewable iff the status is in progress, completed or delivered |
| RepairNotes.OnlyStatusNamesOpen | src/components/RepairNoteEditor.tsx:31-33 | text that is not a status name opens nothing |
| RepairNotes.CanViewNote | src/components/RepairNoteEditor.tsx:31 | the note is viewable iff the status text reads as in progress, completed or delivered |
| RepairNotes.CanEditNote | src/components/RepairNoteEditor.tsx:33 | an editable note is viewable, and nobody but an administrator may edit |
| RepairNotes.Render | src/components/RepairNoteEditor.tsx:26-118 | nothing when signed out. Locked iff not viewable. The editor iff admin and viewable, showing the note and saving state. Read-only text for a non-admin |
| RepairNotes.NoteEditor.constructor | src/components/RepairNoteEditor.tsx:22-23 | the note starts as the current note, or `''` when it is null; not saving |
| RepairNotes.NoteEditor.SetNote | src/components/RepairNoteEditor.tsx:97 | the note takes the text |
| RepairNotes.NoteEditor.HandleSave | src/components/RepairNoteEditor.tsx:35-67 | a non-admin gets Access Denied and no update. An admin's note is sent as the update for that receipt, the toast reports the outcome, and saving ends |

## Left out

- Supabase and React Query: every query, insert, update, cache invalidation and toast is external I/O. The listing and grouped queries are modelled as query descriptions (filter and order). The create mutation is an oracle parameter indexed by the device's position in the submit loop. The CSV insert is one indexed by the row's position; a row that fails validation makes no call. The note update is a boolean parameter saying whether it fails. The database itself, and whether the insert succeeds, are not modelled.
- JavaScript `Date`, time zones and date-fns: a calendar day is an integer. A clock reading `new Date().toISOString()` is a parameter: a string where the source reads the clock once, and a function of the iteration (`now(i)`) where a loop reads it once per pass (the submit loop, the CSV import). The date-fns formats of the export are function parameters. `parse(…, 'yyyy-MM-dd')` is a predicate parameter (`accepts`).
- The Blob/anchor download of the export, `window.print`, refs, Enter-key focus handling and `setTimeout` blurs are browser work, not logic.
- `crypto.randomUUID` for device ids is replaced by a counter. The form needs ids that are fresh and distinct, and the counter gives both (stated in `ReceiptForm.Valid`).
- `useReceipt(id)` and `useUpdateReceipt` (src/hooks/useReceipts.ts:36-51, 110-134) only pass their arguments to the database; they are not modelled.
- Text.LowerChar: `toLowerCase` is modelled for ASCII letters only; other scripts are left as they are.
- ReceiptQueries.ILikeContains: the `%`/`_` wildcards, and a comma inside the search term (which splits the `or` filter), are not modelled. The search is a plain case-insensitive substring test.
- Lengths are counted in code points, not UTF-16 units; integers are unbounded, so `parseInt` never overflows.
- File-level CSV round trip: `parseCSV` splits on line feeds before it looks at quotes (src/utils/importCsv.ts:23). A value the export quotes because it holds a line feed therefore does not read back. The round trip is proved per line, and per file only for values without line feeds (ImportCsv.FileRoundTrip, ImportCsv.ExportThenParse).
- NepaliCalendar.YearLength: the 365-day fallback of `getTotalDaysInYear` is modelled and proved, but the converter never calls it. Outside the table the converter returns where its walk stopped (BS 2091/01/… or BS 2069/12/31).
- src/pages/PrintReceiptPage.tsx:57 passes `receipt` to a component that expects `receipts`. PrintReceipt.Render models the component as declared.
- The walk and its proofs are stated for any month table with the shape of the real one; ConvertToNepaliDate instantiates them with the real table.
- ReceiptFormState.ReceiptForm.HandleSubmit: the reset is applied after the loop instead of inside its last iteration. That iteration is the loop's last action, so the resulting state is the same.
- ReceiptFormState.SubmitAll: the payloads are built before the loop rather than one per iteration. Each is built from the devices, the form fields (which the loop does not change) and that iteration's clock reading `now(i)`, so the payloads are the same.
- ReceiptFormState.SubmitData: the form's payload has no `group_id`, as in the source; CreateInsert maps a missing group id to null.
- ImportCsv.ParseDate: only the blank-input branch and the pass-through of an accepted string are modelled; date-fns' acceptance is the `accepts` parameter.
- NepaliCalendar.FormatNepaliDate takes a calendar day. `formatNepaliDate` also accepts a string; an unparseable one gives an invalid `Date`, whose day difference is NaN. Every comparison with NaN is false, so the source returns `2081/01/01 B.S.` for it. That path is not modelled.
