# Freight queue preparation (reader-csv), modelled in Dafny

reader-csv reads a CSV file of shipment orders, checks the shipment-date
column `data_embarque`, converts every cell of it under the fixed format
`%d/%m/%Y`, rejects the whole table if any cell is not a real calendar date,
orders the rows by date and writes the result to a spreadsheet at a fixed
path. This project models that pipeline and proves its contract:

- `dates.dfy` (`Dates`): the shipment-date grammar and the Gregorian calendar
  behind `pd.to_datetime(..., format='%d/%m/%Y', errors='coerce')`. The
  grammar is: one or two ASCII digits for the day, `/`, one or two for the
  month, `/`, exactly four for the year; the result must be a real date in
  years 1..9999 (day within the month, February 29 only in leap years under
  the Gregorian rule). Everything else gives "no date", where pandas gives NaT.
- `frames.dfy` (`Frames`): the data frame as a header of distinct column
  names and rows holding one cell per column; a cell is read text, a
  converted date, or a missing value (NaN for an empty field, NaT for a
  coerced date).
- `errors.dfy` (`Errors`): exceptions as a class (the `except` clause that
  would catch them) and a text, with the four exceptions the pipeline raises.
- `date_sort.dfy` (`DateSort`): the ordering `sort_values('data_embarque')`
  performs, written as an insertion sort over the rows.
- `freight_queue.dfy` (`FreightQueue`): `prepare_freight_queue`.
- `loader.dfy` (`Loader`): `load_csv`, with the file system and the CSV
  tokeniser abstracted into what they hand back.
- `exporter.dfy` (`Exporter`): `save_to_excel` as an abstract last step.
- `driver.dfy` (`Driver`): `main`, returning the lines it logs and the frame
  it wrote, if any.

`wrappers.dfy` holds the `Option` and `Result` types.

The transform, loader and driver are pure functions over values. The
driver's exception handling becomes a match over `Result` values; each
exception carries its class, so `main`'s handlers dispatch the way Python's
`except` clauses do.

Two points of the code are easy to misread:

- The sort at reader-csv/reader-csv.py:40 is not stable: `sort_values` uses
  pandas' default quicksort, which is not guaranteed stable, so only order
  and permutation are proved.
- EMPTY_FILE (reader-csv/reader-csv.py:21) fires on `df.empty`, which holds
  for a frame with no data rows and also for a frame with no columns; the
  model follows `df.empty`.

## Model

| member | source | states |
|---|---|---|
| `Dates.ParseDate` | reader-csv/reader-csv.py:31-35 | a cell that converts always converts to a real calendar date (year 1..9999, month 1..12, day within the month) |
| `Dates.ParseDateExact` | reader-csv/reader-csv.py:31-35 | a text converts to date `d` if and only if `d` is a real calendar date and the text is one of its D/M/YYYY spellings (day and month in one or two digits, year in four) |
| `Dates.ParsedIsSpelling` | reader-csv/reader-csv.py:31-35 | every accepted text is a D/M/YYYY spelling of the valid date it yields |
| `Dates.SpellingIsParsed` | reader-csv/reader-csv.py:31-35 | every D/M/YYYY spelling of a valid date is accepted as that date |
| `Dates.FormatThenParse` | reader-csv/reader-csv.py:33 | a valid date printed as DD/MM/YYYY converts back to the same date |
| `Dates.LeapDay` | reader-csv/reader-csv.py:31-35 | February 29 is a date exactly in Gregorian leap years; February 30 and April 31 never are; December 31 always is |
| `Dates.DateLeIsTotalOrder` | reader-csv/reader-csv.py:40 | the date order used to sort is reflexive, total, antisymmetric and transitive |
| `Dates.ParseDateAccepts` | reader-csv/reader-csv.py:31-35 | `25/12/2024`, `29/02/2024` and `5/1/2025` convert to the dates they name |
| `Dates.ParseDateAcceptsPadded` | reader-csv/reader-csv.py:31-35 | `05/01/2025` and `01/01/2025` convert to the dates they name |
| `Dates.ParseDateRejectsDayOverflow` | reader-csv/reader-csv.py:31-35 | `31/02/2024`, `29/02/2023` and `29/02/1900` are not dates |
| `Dates.ParseDateRejectsOutOfRange` | reader-csv/reader-csv.py:31-35 | month 13 and day 0 are not dates |
| `Dates.ParseDateRejectsMalformed` | reader-csv/reader-csv.py:31-35 | the empty cell, non-digits, ISO order, a two-digit year and a three-digit day are not dates |
| `Frames.IndexOf` | reader-csv/reader-csv.py:28 | the column lookup finds a position exactly when the name is in the header, and the position holds that name |
| `Frames.IsEmpty` | reader-csv/reader-csv.py:21 | a frame is empty exactly when it has no rows or no columns, so a non-empty well-formed frame has a cell in its first row |
| `FreightQueue.ShipmentDate` | reader-csv/reader-csv.py:31-35 | a cell already holding a date keeps that date and a missing cell denotes none |
| `FreightQueue.ShipmentDateGrammar` | reader-csv/reader-csv.py:31-35 | a text cell denotes date `d` exactly when `d` is a real calendar date and the text is one of its D/M/YYYY spellings |
| `FreightQueue.ToDatetime` | reader-csv/reader-csv.py:31-35 | every cell comes out of the conversion as a date or NaT; a date cell is kept and a missing cell stays missing |
| `FreightQueue.ToDatetimeGrammar` | reader-csv/reader-csv.py:31-35 | a text cell converts to date `d` exactly when it is a D/M/YYYY spelling of the real calendar date `d`, and to NaT exactly when it spells no calendar date |
| `FreightQueue.ConvertColumn` | reader-csv/reader-csv.py:31-35 | the assignment keeps the number of rows and their widths, converts each row's date cell, leaves every other cell unchanged, and leaves only dates or NaT in the date column |
| `FreightQueue.AnyNull` | reader-csv/reader-csv.py:37 | when no cell of a converted column is null, every row holds a date in it |
| `FreightQueue.PrepareFreightQueue` | reader-csv/reader-csv.py:27-40 | the only failures are COLUMN_NOT_FOUND and INVALID_DATE; a success keeps the header and the number of rows |
| `FreightQueue.PrepareOutcomes` | reader-csv/reader-csv.py:27-38 | COLUMN_NOT_FOUND exactly when the column is absent; INVALID_DATE exactly when it is present and some cell of it is not a date; success exactly when every cell of it is a date |
| `FreightQueue.ColumnCheckIgnoresCells` | reader-csv/reader-csv.py:28-29 | without the column the outcome is COLUMN_NOT_FOUND whatever the cells hold: the check comes before any conversion |
| `FreightQueue.PrepareSuccess` | reader-csv/reader-csv.py:31-40 | on success every row holds a converted date, the rows are in ascending date order, and they are a permutation of the input rows with the date column converted |
| `FreightQueue.PrepareKeepsOtherCells` | reader-csv/reader-csv.py:31-40 | every output row is some input row with its date cell converted and every other cell unchanged |
| `FreightQueue.PrepareLosesNoRow` | reader-csv/reader-csv.py:31-40 | every input row appears in the output, with its date cell converted and every other cell unchanged |
| `FreightQueue.PrepareExample` | reader-csv/reader-csv.py:27-40 | orders dated 05/01/2025 and 01/01/2025 come back as 2025-01-01 then 2025-01-05 |
| `FreightQueue.PrepareRejectsImpossibleDate` | reader-csv/reader-csv.py:31-38 | one cell holding 31/02/2024 makes the whole table fail with INVALID_DATE |
| `DateSort.Insert` | reader-csv/reader-csv.py:40 | inserting a dated row adds exactly that row and keeps every row dated |
| `DateSort.SortByDate` | reader-csv/reader-csv.py:40 | the sorted rows are a permutation of the input rows, all dated |
| `DateSort.InsertSorted` | reader-csv/reader-csv.py:40 | inserting into ascending rows keeps them ascending |
| `DateSort.SortByDateSorted` | reader-csv/reader-csv.py:40 | the sorted rows are in ascending date order |
| `Loader.LoadCsv` | reader-csv/reader-csv.py:15-24 | a loaded frame has at least one row and one column |
| `Loader.LoadOutcomes` | reader-csv/reader-csv.py:15-24 | a missing path gives FILE_NOT_FOUND, a tokeniser exception passes through, EMPTY_FILE exactly for an empty frame, and success exactly for a non-empty frame, which is returned unchanged |
| `Loader.HeaderOnlyIsEmpty` | reader-csv/reader-csv.py:21-22 | a file with a header and no data rows fails with EMPTY_FILE |
| `Exporter.SaveToExcel` | reader-csv/reader-csv.py:43-51 | the export succeeds exactly when the writer raises nothing, and then returns the fixed output path |
| `Driver.ReportMessages` | reader-csv/reader-csv.py:70-77 | the four pipeline exceptions log FILE_NOT_FOUND, EMPTY_FILE, COLUMN_NOT_FOUND and INVALID_DATE; an exception of any other class logs `ERROR: ` and its text, which is none of the four |
| `Driver.Report` | reader-csv/reader-csv.py:70-77 | the line is chosen by class alone: any FileNotFoundError logs FILE_NOT_FOUND and any KeyError COLUMN_NOT_FOUND, whatever its text; a ValueError logs exactly its text; an exception of any other class logs `ERROR: ` followed by its text; so the four pipeline exceptions are logged under their own text |
| `Driver.Reached` | reader-csv/reader-csv.py:56-68 | the first `n` stages log exactly the first `n` markers START, LOAD, TRANSFORM, EXPORT, END, in that order |
| `Driver.Main` | reader-csv/reader-csv.py:54-77 | every log is three to five lines: the stage markers in order cut off by one final line, which is an error exactly when nothing was written and END exactly when the export completed |
| `Driver.MainStageOrder` | reader-csv/reader-csv.py:58-68 | TRANSFORM is reached exactly when loading succeeded, EXPORT exactly when the transform succeeded too, END exactly when the export succeeded too |
| `Driver.MainWritesOnlyValidatedFrames` | reader-csv/reader-csv.py:58-68 | a frame is written exactly when load, transform and export all succeed, and it is the transformed frame: dated, ascending, a permutation of the loaded rows |
| `Driver.MainFailureMessages` | reader-csv/reader-csv.py:58-77 | a missing file, a file the tokeniser rejects with a ValueError (logged as that error's text, verbatim), a header-only file, a missing column, an invalid date and an unexpected export error each end the run with their own single line after the markers of the stages started |
| `Driver.ExportFileNotFoundLooksLikeMissingInput` | reader-csv/reader-csv.py:65-71 | a FileNotFoundError raised while writing the spreadsheet is logged as FILE_NOT_FOUND, the same line as a missing input file |

## Left out

- CSV tokenising (`pd.read_csv`, reader-csv/reader-csv.py:19): library internals. The loader takes what the tokeniser would hand back: an exception, or a frame.
- Type inference of `pd.read_csv`: a cell is read text or a missing value. Numbers and dates inferred at read time are not modelled.
- Spreadsheet writing (`df.to_excel`, reader-csv/reader-csv.py:50): binary file I/O. The writer is a parameter that raises or succeeds. A file partly written before the writer raised is not modelled.
- Path helpers (`get_project_root`, `get_csv_path`, reader-csv/reader-csv.py:7-12, and the output join at :44-48): operating-system path plumbing. The output path is the constant `data/fila-fretes.xlsx`, relative to the project root. The input path is not a parameter of the model.
- Logger setup (reader-csv/logger.py): process-wide configuration. The log is the sequence of lines `main` emits, with their level, and without formatting.
- The in-place overwrite of the caller's frame by `prepare_freight_queue` (reader-csv/reader-csv.py:31). The model returns a new frame. After an INVALID_DATE failure the caller's frame already holds the converted column; a COLUMN_NOT_FOUND failure raises before the assignment and leaves it untouched. `main` never reads that frame again, so this is not modelled.
- DateSort.SortByDate: does not promise that rows with equal dates keep their relative order. `sort_values` does not promise this either, and the insertion sort used is free to differ from pandas' order for such rows.
- Dates.ParseDate: follows the grammar above, not pandas' internals. It does not model the nanosecond-timestamp year range (pandas also gives NaT outside about 1677–2262). It does not model leniency toward spaces inside fields. It accepts only ASCII digits, while strptime's `\d` also matches other Unicode decimal digits (a fullwidth-digit year converts in pandas and gives no date here).
- A zero-byte input file never reaches the `df.empty` check: `pd.read_csv` raises its own ValueError subclass on it ("No columns to parse from file"), and `main` logs that text verbatim at reader-csv/reader-csv.py:74-75 rather than EMPTY_FILE. The model covers it as `Unreadable(Exception(ValueError, text))`; EMPTY_FILE is for a file with a header and no data rows.
- Exceptions raised by pandas inside `prepare_freight_queue`, other than the two the function raises itself, are not modelled.
