# Courier report exporter (`xls_script`)

A Dafny model of the batch job in `src/bin/xls_script.rs`. The job reads the ids of all couriers that are not deleted. For each id, in query order, it fetches that courier's rows from the `courier_exel` view and opens a workbook at the fixed path `summary/test.xlsx`. It writes a 14-column Russian header into row 0 and then fills the data rows cell by cell in the loop `for i in 1..=rows.len()`. Finally it closes the workbook.

The model has five modules:

- `Records`: the rows and enums the job reads. `i64` is a bounded `newtype`. chrono's date and time types are opaque, and their `to_string` is a `Formatter` value passed in.
- `Cells`: the pure cell functions of one data row:
  - the header labels;
  - money in major units (Rust `i64 / 100`, truncating toward zero);
  - the order-status label, which has no label for any other status (the `panic!()` arm);
  - the total pay-method label;
  - the text shown for a session without an end time;
  - the cell type of each column.
- `Sheet`: the spreadsheet library as the job uses it. A `Worksheet` class holds a grid from (row, column) to a cell and has three write methods. A `Workbook` class owns at most one worksheet. `Close` stores the workbook's grid in a `FileSystem` object under the workbook's path.
- `Report`: one courier's worksheet. `WriteHeader`, `WriteRow` and `FillRows` are the imperative code: single cell writes, and the `while` loop with the source's index bounds. Each is proved equal to a specification function: `WriteHeader` to `PutRow` of `HeaderCells` over the sheet's old cells (which is `HeaderGrid` on the fresh sheet the job uses), `WriteRow` to `PutRow` of `WrittenCells`, `FillRows` to `Fill`. The properties are lemmas about those functions. A panic is a value, `Outcome.Panic(fault)`:
  - a read of `rows[rows.len()]` is `IndexOutOfBounds`;
  - a status without a label is `UnmappedStatus`.
- `Job`: `main`'s loop over couriers. `RunCourierReports` is the method; `Run` is the function it is proved against. The database queries are inputs: the `couriers` table is a sequence, and the per-courier query is a function from id to rows.

Facts about the code that shape the model:

- Money is Rust `i64 / 100`, truncated toward zero (`Cells.MoneyVersusFloor` says where that differs from floor division).
- Each courier's rows go into a single sheet of that courier's own workbook, with no limit on rows, and the job sends no e-mail. It visits every courier that is not deleted.
- Every courier's workbook goes to the same fixed path `summary/test.xlsx`, so each courier's file replaces the previous one.
- `delivery_datetime` is a non-optional `Timestamp` (src/bin/xls_script.rs:52) and is never replaced by placeholder text: column 9 is its `to_string` whenever that column is written.
- A courier with two orders does not get a header plus two rows: the job panics on any non-empty row set (see Findings).
- `src/enum_types.rs` declares the pay-method variants in lower case (`cash`, `card`, `already_payed`), while `xls_script.rs` matches `Cash`, `Card` and `AlreadyPayed`. The model uses the names the job matches on. The `OrderStatus` enum is not declared in the files modelled here. It is modelled as its three labelled variants plus `Other`, which stands for everything the `_` arm catches.
- The courier query at src/bin/xls_script.rs:186-189 has no `ORDER BY`: the ids come in whatever order the database returns them, and the model's `couriers` sequence stands for that order.

## Model

| member | source | states |
|---|---|---|
| Cells.HeaderCells | src/bin/xls_script.rs:196-209 | the header is 14 string cells, column c holding the c-th fixed label |
| Cells.Money | src/bin/xls_script.rs:220 | the major amount is the quotient truncated toward zero: for a non-negative amount 100·major <= minor < 100·major + 100, for a negative one 100·major - 100 < minor <= 100·major |
| Cells.MoneyVersusFloor | src/bin/xls_script.rs:231 | truncation agrees with floor division exactly when the amount is non-negative or a whole number of major units; otherwise it is one more |
| Cells.MoneyOdd | src/bin/xls_script.rs:220 | the money cell of -a is minus the money cell of a, for every a except i64::MIN |
| Cells.StatusLabel | src/bin/xls_script.rs:221-226 | a status has a label iff it is one of the three named variants, each with its fixed Russian label; any other status has none (the panic) |
| Cells.StatusOfLabel | src/bin/xls_script.rs:221-226 | reading a label back returns the one status with that label, or nothing when no status has it: the status labels are distinct |
| Cells.PayLabel | src/bin/xls_script.rs:234-238 | each of the three pay methods maps to its fixed label |
| Cells.PayOfLabel | src/bin/xls_script.rs:234-238 | reading a pay label back returns the one method with that label: the pay labels are distinct |
| Cells.EndTimeText | src/bin/xls_script.rs:215-217 | column 2 is the rendered end time when there is one and the fixed "session not ended" text when there is none |
| Cells.EndTimeTextDistinguishes | src/bin/xls_script.rs:215-218 | when no time renders as that text, column 2 shows it exactly for sessions without an end time |
| Cells.LeadingCells | src/bin/xls_script.rs:213-220 | columns 0-4: session day, start time, end-time text, order id as a number, courier salary in major units as a number |
| Cells.TrailingCells | src/bin/xls_script.rs:227-238 | columns 6-13: details, big-order flag as a boolean, cooking time, delivery time, order price in major units, address, client comment, pay label |
| Cells.RowCells | src/bin/xls_script.rs:213-238 | a complete row exists iff the status has a label, and it has 14 cells |
| Cells.RowCellsColumns | src/bin/xls_script.rs:213-238 | column by column what a complete row holds; a cell is a number iff its column is 3, 4 or 10, and a boolean iff its column is 7 |
| Cells.WrittenCells | src/bin/xls_script.rs:213-238 | a row write leaves the whole 14-cell row when the status has a label, or only the first five when it has none; the first five are always the leading cells |
| Cells.TakeDatetimeNotShown | src/bin/xls_script.rs:210-239 | the pick-up time is in no cell: changing it changes no written cell |
| Sheet.Worksheet.constructor | src/bin/xls_script.rs:195 | a new worksheet has no cells |
| Sheet.Worksheet.WriteString | src/bin/xls_script.rs:196 | the cell at (row, col) becomes the string and no other cell changes |
| Sheet.Worksheet.WriteNumber | src/bin/xls_script.rs:219 | the cell at (row, col) becomes the number and no other cell changes |
| Sheet.Worksheet.WriteBoolean | src/bin/xls_script.rs:228 | the cell at (row, col) becomes the boolean and no other cell changes |
| Sheet.PutRowAt | src/bin/xls_script.rs:213-238 | writing a row's cells from column 0 covers exactly columns 0 to n-1 of that row with them and keeps every other cell |
| Sheet.Workbook.constructor | src/bin/xls_script.rs:194 | a new workbook at a path has no worksheet and has not saved anything |
| Sheet.Workbook.AddWorksheet | src/bin/xls_script.rs:195 | the workbook's worksheet is a fresh, empty one |
| Sheet.Workbook.Close | src/bin/xls_script.rs:240 | the file at the workbook's path now holds the worksheet's cells, replacing what was there; no other file changes |
| Report.HeaderGrid | src/bin/xls_script.rs:196-209 | after the header, the grid holds exactly row 0, columns 0-13, with the 14 labels as strings |
| Report.WriteHeader | src/bin/xls_script.rs:196-209 | the 14 header writes leave the grid with the header row written over it |
| Report.WriteRow | src/bin/xls_script.rs:213-238 | one loop pass succeeds iff the status has a label, and leaves the grid with that row's written cells put into sheet row i |
| Report.FillRows | src/bin/xls_script.rs:210-239 | the data-row loop's outcome and final grid are those of `Fill` from index 1 |
| Report.Fill | src/bin/xls_script.rs:210-239 | the loop from index i completes iff it does not run at all (i > number of rows) |
| Report.FillFrameAt | src/bin/xls_script.rs:210-239 | the loop keeps every existing cell, leaves rows before i unchanged, and adds cells only in rows i to len-1 |
| Report.FillCellAt | src/bin/xls_script.rs:210-239 | every cell the loop adds in sheet row j is column c of input row j, and no row from i up to j has an unlabelled status |
| Report.FillRowAt | src/bin/xls_script.rs:210-239 | every written cell of input row j is there when no row from i up to j has an unlabelled status |
| Report.FillFault | src/bin/xls_script.rs:210-226 | the loop panics at the first unlabelled status, or else with the read at index len |
| Report.FillAgrees | src/bin/xls_script.rs:210-213 | the loop from i reads only rows from index i on |
| Report.ExportSheet | src/bin/xls_script.rs:194-239 | one courier's worksheet completes iff the courier has no rows, and then it is the header alone |
| Report.ExportHeaderRow | src/bin/xls_script.rs:196-209 | in the finished worksheet, row 0 is exactly the 14 header labels as strings |
| Report.ExportDataRows | src/bin/xls_script.rs:210-239 | a cell in sheet row i >= 1 is column c of input row i, with 1 <= i < len and no unlabelled status from row 1 up to i; each such row is there in full, so input row 0 is never shown |
| Report.ExportRowIs | src/bin/xls_script.rs:210-239 | a data row that the loop reaches is written in full |
| Report.ExportFault | src/bin/xls_script.rs:210-226 | a non-empty row set always panics: at the first unlabelled status among rows 1.., or else with the out-of-bounds read of rows[len] |
| Report.ExportIgnoresFirstRow | src/bin/xls_script.rs:210-213 | replacing input row 0 changes neither the outcome nor any cell |
| Report.FillCorrected | src/bin/xls_script.rs:210-213 | the corrected loop completes iff no remaining status is unlabelled |
| Report.ExportSheetCorrected | src/bin/xls_script.rs:210-213 | the corrected worksheet completes iff every status has a label |
| Report.FillCorrectedKeeps | src/bin/xls_script.rs:210-213 | the corrected loop from k keeps every cell in rows up to k, whatever the statuses |
| Report.FillCorrectedCell | src/bin/xls_script.rs:210-213 | the corrected loop from k writes column c of input row j, k <= j, into sheet row j + 1 when no row from k up to j has an unlabelled status |
| Report.ExportSheetCorrectedRows | src/bin/xls_script.rs:210-213 | with every status labelled, the corrected worksheet holds the header in row 0 and input row k in full in sheet row k + 1 |
| Report.ExportCorrectedRowIs | src/bin/xls_script.rs:210-213 | one input row k of the corrected worksheet is in sheet row k + 1 in full |
| Report.OffByOneWitness | src/bin/xls_script.rs:210-213 | a single row with a labelled status makes the as-written loop panic with index 1 of 1, while the corrected loop completes |
| Job.ActiveIds | src/bin/xls_script.rs:186-189 | the query returns no more ids than there are couriers |
| Job.ActiveIdsMembers | src/bin/xls_script.rs:186-189 | an id is returned iff a courier with that id is not deleted |
| Job.ActiveIdsAppend | src/bin/xls_script.rs:186-189 | the query keeps the order in which the database returns the couriers: it distributes over concatenation |
| Job.Run | src/bin/xls_script.rs:190-242 | over no couriers the job completes and changes no file |
| Job.RunDoneIff | src/bin/xls_script.rs:190-242 | the job completes iff every courier it visits has no rows |
| Job.RunKeepsOtherFiles | src/bin/xls_script.rs:194 | no file other than summary/test.xlsx is created, removed or changed |
| Job.RunAppend | src/bin/xls_script.rs:190-242 | couriers are handled one after another: a run over a + b is the run over a, then, unless it panicked, the run over b from the files a left |
| Job.RunDoneFiles | src/bin/xls_script.rs:190-240 | a completed run leaves summary/test.xlsx as the last courier wrote it (the header alone), or no change over no courier |
| Job.RunStopsAtFirstNonEmpty | src/bin/xls_script.rs:190-240 | the job ends with the panic of the first courier with rows, before that courier's close: the report file is then the previous courier's header-only sheet, or untouched |
| Job.RunCourierReports | src/bin/xls_script.rs:179-243 | `main`'s loop: its outcome and the files it leaves are those of `Run` over the active ids |

## Left out

- The structs `CourierXLSTotal`, `RestaurantXLS` and `RestaurantXLSTotal` (src/bin/xls_script.rs:65-177): `main` does not use them.
- Reading `DATABASE_URL` and building the connection pool (src/bin/xls_script.rs:180-184): environment and connection setup.
- Failures of the database queries and of `pool.get()` (the `unwrap`s at lines 189 and 193): both query results are inputs.
- The SQL behind the `courier_exel` view and the `couriers` table filter, other than "not deleted, in the order the database returns them".
- Sheet.Worksheet.WriteString: never fails here. The library's own write errors, which the job `unwrap`s, and its limits on rows, columns and string length are not modelled. The same holds for WriteNumber and WriteBoolean.
- Sheet.Workbook.Close: never fails here, and the xlsx file format is not modelled; a saved file is its grid of cells.
- The `as f64` casts of the number cells: a number cell holds the integer before the cast. Values beyond 2^53 would be rounded by the cast, and this model does not show that.
- The `i as u32` cast of the row index: it would wrap only for 2^32 rows or more, far beyond the library's limit of 1,048,576 rows per sheet, and row indices are unbounded naturals here.
- chrono's `to_string` formats: each is an opaque function in `Formatter`.
- Job.RunStopsAtFirstNonEmpty and Job.RunCourierReports: both assume that a workbook dropped while a panic unwinds writes nothing, so the panicking courier's file is never saved. Whether the spreadsheet library's drop saves a partial workbook is library behaviour not in the source.
- The route handlers, the database modules, e-mail, pagination, scheduling and restaurant settlement are not part of this model; they are not in `main`.

## Findings

| source | as written | input that shows it | evidently intended | confidence | as-written member | corrected member |
|---|---|---|---|---|---|---|
| src/bin/xls_script.rs:210-213 | `for i in 1..=rows.len()` reads `rows[i]`, skipping row 0 and reading one past the end | any courier with one row whose status has a label: the pass with i = 1 reads `rows[1]` of a one-row vector and panics before `close` | input row k goes to sheet row k + 1 for k in 0..len, and the workbook is saved | high, not executed | Report.OffByOneWitness | Report.ExportSheetCorrectedRows |

The job model (`Job.Run`, `Job.RunCourierReports`) keeps the loop as written, because that is what the program does. So in the model, as in the program, a run finishes only when every active courier has no rows.
